# Verified model of the bring-your-own-host provider

A Dafny model of the part of the Cluster API provider for pre-provisioned hosts that allocates, serves and
recovers those hosts, with proofs of what that part keeps. It covers

- the claim protocol: concurrent attach calls that read from a lagging cache, take 30-second leases by optimistic
  updates, claim by unchecked patches and release (`claim_protocol.dfy`, `claim_cache.dfy`, `claim_leases.dfy`,
  `claim_refinement.dfy`, `claim_hazards.dfy`), the code of one attempt on a store that others change between any
  two of its API calls (`attach_attempt.dfy`), how it ends and what it leaves (`attach_spec.dfy`,
  `attach_outcome.dfy`), the choice of a host (`host_selection.dfy`) and the retry loop (`attach_loop.dfy`);
- the host lifecycle: the ByoMachine controller, the ByoHost controller, the host agents, the deletion webhook and
  the users, interleaved one reconcile at a time (`lifecycle*.dfy`, over `byomachine_controller.dfy`,
  `byohost_controller.dfy`, `host_agent.dfy` and `cleanup_timeout.dfy`);
- the installation-secret handshake between the ByoMachine and the K8sInstallerConfig controllers
  (`installer_handshake.dfy`);
- three codecs: provider IDs (`provider_id.dfy`), the agent's label flag (`label_flags.dfy`) and the rewrite of
  kubeadm configurations (`kubeadm_config.dfy`).

`dafny verify dfyconfig.toml` checks everything.

## How it is built

Code that changes objects in place is modelled by classes and methods with the source's branches. Most methods are
proved equal to a function on values, and those functions are what the lifecycle and handshake machines run. The
attach call is connected in both ways: its result and the store after it are proved equal to a function, for which
`AttachOutcome` gives the exact condition of every end; and its store keeps the history of the claim protocol as a
ghost field, of which every API call of the code is proved to be a step, so the theorems about protocol runs are
theorems about the code. What the functions write, and when, is stated once more on the fields and inputs themselves.
A state machine is a function `Apply` from a state and a step to the next state. A step carries every choice of the
environment (which API calls fail, which patches are lost, what a cache returns, what the clock and the disk say), so
a run is a list of steps and the run theorems quantify over all lists.

Some promises of the code are false in general. Then the model keeps the code as it is, a lemma shows the failure
for every member of a family of inputs or for a concrete run, and a lemma whose name ends in `Exactly` gives the
condition under which a step keeps the property, as an if-and-only-if. The run theorem then assumes that condition
and nothing else. Claim exclusivity is the exception: its condition `Timely` is sufficient, and each part of it has a
run in `ClaimHazards` that shows what happens without it. The findings are:

- a claim or release later than 30 seconds after its lease, a lease lost within them, or the clearing of a stale
  reference and the re-read after it, neither of which is checked, displaces a wanted owner (`ClaimHazards`);
- a machine lookup that lags behind makes a wanted owner look gone and erases its reference
  (`ClaimHazards.LaggingLookupDisplaces`);
- a reload that shows the object from before the lease leaves the lease on the host, although no release fails
  (`ClaimHazards.LaggingReloadLeavesLease`);
- a claim after a reload that already showed the claimant's reference does not write it again, and so binds nothing
  if the reference has gone since (`ClaimProtocol.ClaimBindsExactly`);
- a lookup by label that lags behind lets an attached machine claim a second host
  (`LifecycleBinding.AttachKeepsUniqueExactly`);
- a claim whose machine patch is lost leaves the host to the next machine of that name
  (`LifecycleRuns.LostFinalizerIsInherited`);
- a cleanup goes on when its node reset had no effect, and so returns a host with a running node to the pool
  (`LifecyclePhysical.FailedResetIsDirty`);
- deleting the object of a force-released host and registering it again puts a running node into the pool
  (`LifecyclePhysical.ReRegistrationIsDirty`);
- a lost bootstrap patch bootstraps twice (`LifecyclePhysical.LostBootPatchBootsTwice`);
- a machine deleted while its host is marked paused never goes away (`LifecycleClock.DeletedWhilePausedStaysStuck`);
- a cleanup on the deletion path whose error reads as permanent is reported as success
  (`HostAgent.SuccessWithoutCleanupExactly`);
- a zombie cleanup that fails halfway leaves a host that its agent ignores (`HostAgent.AgentIgnoresStranded`);
- one pause while a host waits for its installation secret strands it (`InstallerHandshake.PauseStrands`);
- selection panics on a pool with negative priorities only, and on a top class that shrinks to the stored index
  (`HostSelection.SelectionFailsExactly`, `HostSelection.ShrunkPoolPanics`);
- the cleanup timeout overflows for very large hosts and gives them the shortest wait
  (`CleanupTimeout.OverflowShortensTimeout`);
- a host whose name has a dot accepts provider IDs of other hosts (`ProviderId.RejectsOthersExactly`).

Reads go through the manager's cached client (main.go:104). In the claim protocol a read of a host may fail or return
any object that the host has had (`ClaimCache.EarlierObjectReadable`; the machine admits more objects than that, and
the runs of `ClaimHazards` use none of them), and a lookup of a machine may say anything; only `Update` checks versions.
Up-to-date lookups of machines are part of `Timely` and of nothing else, and reads of hosts are never assumed to be up
to date, except that `Timely` asks of the re-read after a clearing that it shows no other claim. The lifecycle and
handshake machines do assume up-to-date reads: each of their reconciles sees the store as it is when it runs.

Assumptions about code outside the repository: one reconcile at a time per object key; an Update is refused when
the object's version has moved on; the patch helper sends the changed fields as a merge patch (section 2 of RFC
7396) without a version check, and the patch lands whole or not at all; namespaces contain no dot. The lifecycle
machine treats each reconcile as one atomic step; the claim protocol machine splits the attach call into its single
reads and writes. A failed re-read leaves the object in memory as the last successful call returned it.

## Model

| member | source | states |
|---|---|---|
| ByoModel.AttachedLabelInjective | controllers/infrastructure/byomachine_controller.go:795 | The label value namespace "." name names one machine only, because a namespace has no dot. |
| MachineController.ClaimHost | controllers/infrastructure/byomachine_controller.go:781-866 | Claiming writes the reference, both labels, the bootstrap secret, the synchronised spec and the annotations into the host, merges the machine's labels except the cluster name, and touches nothing else; it fails exactly when the TLS mode cannot create its secret, and never touches the lease. |
| MachineController.ClaimedFields | controllers/infrastructure/byomachine_controller.go:781-866 | Field by field: a claimed host has the reference, namespace.name and cluster labels, secret, modes, versions, endpoint and registry of its machine and cluster, the version cut before its build metadata, kube-proxy managed always in the TLS mode, for every label key the machine's value or else the host's, and its other nine fields as they were. |
| MachineController.FindByUid | controllers/infrastructure/byomachine_controller.go:255-268 | The first host whose reference has the UID, and null if and only if there is none. |
| MachineController.ReconcileDelete | controllers/infrastructure/byomachine_controller.go:249-315 | The host is the one found by label, or else the first bound to the UID; the finalizer goes only if there is none, or it is being deleted and unbound or past five minutes; otherwise exactly this host is marked or awaited. |
| CleanupTimeout.GetCleanupTimeout | controllers/infrastructure/byohost_controller.go:171-220 | The step-by-step int64 accumulation equals the wrapped ideal sum, clamped, and always lies between 2 and 15 minutes. |
| CleanupTimeout.ExtraCpusExactly | controllers/infrastructure/byohost_controller.go:190-198 | The CPUs charged are the least number that, with eight, is enough. |
| CleanupTimeout.ExtraBlocksExactly | controllers/infrastructure/byohost_controller.go:200-209 | The blocks charged are the largest number of 8 GiB that, with 16 GiB, the memory reaches. |
| CleanupTimeout.OverrideExactly | controllers/infrastructure/byohost_controller.go:171-187 | An override from 2 to 15 minutes is taken as it is, and any other is ignored. |
| CleanupTimeout.OverflowExactly | controllers/infrastructure/byohost_controller.go:190-209 | The sum is exact if and only if extra CPUs plus twice the extra memory blocks stay within 307445724. |
| CleanupTimeout.TimeoutClosedForm | controllers/infrastructure/byohost_controller.go:171-220 | Without an accepted override and within that limit the timeout is five minutes plus the surcharges, capped at fifteen, and never below five. |
| CleanupTimeout.TimeoutMonotone | controllers/infrastructure/byohost_controller.go:190-209 | Within the limit a host at least as large in CPU and memory never gets a shorter timeout. |
| CleanupTimeout.OverflowShortensTimeout | controllers/infrastructure/byohost_controller.go:190-219 | One unit past the limit the wrapped sum is negative and the timeout is the minimum. |
| HostController.Reconcile | controllers/infrastructure/byohost_controller.go:57-167 | The reconcile starts the clock once, forces the release when it has run out unless the deletion of a Node that was found fails, and otherwise requeues after the timeout. |
| HostController.ForceReleaseKeepsHostOutOfPool | controllers/infrastructure/byohost_controller.go:122-157 | A force release keeps both labels and the bootstrap secret, raises the bootstrap condition and so leaves an unclaimable host. |
| HostController.ForcedExactly | controllers/infrastructure/byohost_controller.go:83-157 | A host is forced if and only if it is marked, its deletion or else its readable start lies more than the timeout back, and no deletion of its Node fails; the reconcile fails if and only if one does; otherwise at most the start is recorded, and an unreadable start blocks the release forever. |
| HostController.RequeuesExactly | controllers/infrastructure/byohost_controller.go:159-167 | A reconcile asks to be called again, after the timeout, if and only if the host is marked and was neither released nor held up by its Node; an unmarked host is left alone. |
| HostController.ForceReleaseDeadline | controllers/infrastructure/byohost_controller.go:83-163 | With every requeue that a reconcile returned honoured and no deletion of the Node failing, a marked host with a dead agent is forced by its recorded start plus twice the largest timeout, however often it is marked again. |
| HostController.ForceReleaseWithinThirtyMinutes | controllers/infrastructure/byohost_controller.go:83-220 | Whatever capacity and environment say at each visit, that is within 30 minutes of the recorded start. |
| HostAgent.Agent.HostCleanUp | agent/reconciler/host_reconciler.go:477-541 | The cleanup resets the node, goes on whether or not that stopped it, lowers the conditions and removes files and binding in the code's order, and stops where a later step fails with what was done before it. |
| HostAgent.Agent.ExecuteInstaller | agent/reconciler/host_reconciler.go:240-289 | The uninstall script is kept as soon as the secret is read, and the call succeeds if and only if the secret is read, the script passes its checks and one of three runs works. |
| HostAgent.Agent.ReconcileNormal | agent/reconciler/host_reconciler.go:99-238 | Zombie check, mismatch check, install, bootstrap with the reset of a failed one, and machine-id file, with each stage's early exits. |
| HostAgent.Agent.ReconcileDelete | agent/reconciler/host_reconciler.go:291-330 | The deletion path is the cleanup with every error dropped that reads as permanent. |
| HostAgent.Agent.Reconcile | agent/reconciler/host_reconciler.go:60-97 | The cleanup annotation goes to the cleanup, a deletion to the deletion path, everything else to the normal path. |
| HostAgent.SuccessWithoutCleanupExactly | agent/reconciler/host_reconciler.go:291-330 | An agent reconcile that cleans up a labelled host reports success with the labels still on if and only if the host is being deleted without the annotation, and the cleanup fails with an error that reads as permanent. |
| HostAgent.AgentFrame | agent/reconciler/host_reconciler.go:60-97 | Whatever the I/O returns, an agent reconcile leaves labels, reference, deletion, annotation and clock alone, or takes off everything that the binding put on. |
| HostAgent.AgentOrderly | agent/reconciler/host_reconciler.go:60-97 | Whatever the I/O returns, the host stays coherent, and its labels change only by being removed, after a node reset has run. |
| HostAgent.ReturnsToPoolExactly | agent/reconciler/host_reconciler.go:60-150 | One agent reconcile makes a labelled host claimable if and only if it is marked, being deleted, a zombie or mismatched, its script parses and the removals work; whether the node stopped does not matter. |
| HostAgent.NodeUpExactly | agent/reconciler/host_reconciler.go:543-624 | A node runs after an agent reconcile if and only if a cleanup did not stop it, a bootstrap started it and its failure did not undo that, or it ran before and neither happened. |
| HostAgent.ZombieCleanupFailureStrands | agent/reconciler/host_reconciler.go:103-122 | A zombie cleanup leaves the labels on with both conditions False if and only if the uninstall script passes and the sentinel file or the endpoint cannot be removed. |
| HostAgent.AgentIgnoresStranded | agent/reconciler/host_reconciler.go:99-128 | In that phase an agent reconcile does nothing at all. |
| HostAgent.BootsExactly | agent/reconciler/host_reconciler.go:130-207 | A reconcile bootstraps if and only if the host is bound, unmarked, not being deleted, not bootstrapped, has its bootstrap secret and no readable id of another machine; the secret is read; the installation is skipped, done, taken for granted in the offline TLS mode without a secret, or works within three runs; and directories and script work. |
| HostAgent.BootFields | agent/reconciler/host_reconciler.go:152-226 | What such a reconcile writes: the uninstall script as soon as the installation secret is read, the installed condition if and only if the binaries are there, the bootstrap condition and the machine-id after a bootstrap; and when it reports an error or resets the node. |
| HostAgent.WaitingLeftAlone | agent/reconciler/host_reconciler.go:163-178 | A bound host that waits for its installation secret outside the offline TLS mode is left exactly as it was. |
| HostAgent.OthersLeftAlone | agent/reconciler/host_reconciler.go:99-128 | Clean unbound hosts and bootstrapped hosts without another machine's id are left alone, and a missing bootstrap secret only lowers the condition. |
| HostAgent.ResetsExactly | agent/reconciler/host_reconciler.go:60-207 | A reconcile resets the node if and only if the host is marked, being deleted, unbound with a condition left over or carries another machine's id, or its bootstrap has failed. |
| HostAgent.CleanupFields | agent/reconciler/host_reconciler.go:477-541 | What a cleanup leaves, by where it stops: everything, both conditions lowered, or nothing of the binding and, where it can be removed, no machine-id file. |
| HostAgent.EmptiedFields | agent/reconciler/host_reconciler.go:506-541 | A complete cleanup leaves a claimable, pristine host with lease, pause, node labels and the last machine's settings as they were. |
| HostAgent.BootstrapGuard | agent/reconciler/host_reconciler.go:130-207 | A bootstrap runs only on a bound, unmarked, not yet bootstrapped host whose readable machine-id file does not name another machine. |
| LifecycleBinding.ApplyKeepsInv | controllers/infrastructure/byomachine_controller.go:119-414 | Every step of every actor keeps the lifecycle invariant: coherent hosts, unique labels, known UIDs, recorded binders. |
| LifecycleBinding.PoolHygiene | agent/reconciler/host_reconciler.go:477-541 | After every run a host without the cluster label has no reference, secrets, script, cleanup, start, endpoint, version or registry annotation and neither condition True; a start time exists only beside the cleanup annotation. |
| LifecycleBinding.BindingCoherence | controllers/infrastructure/byomachine_controller.go:221-247 | After every run a set reference comes with cluster label, matching attached label and bootstrap secret, and lookup by label finds exactly that host. |
| LifecycleBinding.OneHostPerMachine | controllers/infrastructure/byomachine_controller.go:387-395 | After every run two hosts carry labels of the same machine if and only if they are the same host. |
| LifecycleBinding.AttachKeepsUniqueExactly | controllers/infrastructure/byomachine_controller.go:221-247 | A landed claim keeps one host per machine if and only if no host carried the label of the machine, so the lookup by label must not lag behind. |
| LifecycleBinding.FallbackExactly | controllers/infrastructure/byomachine_controller.go:249-268 | The deletion finds no host if and only if none carries the machine's label and none is bound to its UID. |
| LifecycleBinding.UidFallbackRedundant | controllers/infrastructure/byomachine_controller.go:255-268 | In reachable states the search by UID never finds what the search by label misses. |
| LifecycleSteps.ServeFields | controllers/infrastructure/byomachine_controller.go:317-413 | A reconcile that finds its host marks it when remediation finds the node gone, stops there if that patch fails, takes the pause off and adds an installation secret that is missing and offered, and changes nothing else. |
| LifecycleSteps.PauseFields | controllers/infrastructure/byomachine_controller.go:578-594 | A reconcile of a paused machine pauses the host with its label, and changes nothing else. |
| LifecycleSteps.AttachFields | controllers/infrastructure/byomachine_controller.go:677-885 | A claim is made if and only if the host has no cluster label, no reference and no blocking lease; it then has the binding field by field, and a lease only if the release was lost. |
| LifecycleSteps.NormalFields | controllers/infrastructure/byomachine_controller.go:170-175 | A normal reconcile stores the finalizer if and only if it was there or its patch lands, and touches no other machine. |
| LifecycleSteps.DeletionNeedsUnbound | apis/infrastructure/v1beta1/byohost_webhook.go:66-76 | Over every step of every actor, a host object comes to be deleted if and only if it is deleted while it has no reference. |
| LifecycleEffect.ApplyEffect | agent/reconciler/host_reconciler.go:60-97 | What one step can do to each host, machine and physical node, stated as a relation: claim, agent patch, or a quiet change that keeps the binding. |
| LifecycleRuns.HeldUntilFreed | controllers/infrastructure/byohost_controller.go:122-157 | In every run a labelled host stops being held only through a complete agent cleanup or the deletion of its object. |
| LifecycleRuns.ForceReleaseLeavesZombie | agent/reconciler/host_reconciler.go:103-122 | The state after a force release is one that the agent's zombie check recognises. |
| LifecycleRuns.ForceReleasedHostNeedsAgent | controllers/infrastructure/byohost_controller.go:122-157 | In every run a force-released host is claimable again only after a complete agent cleanup or a deletion of the object in between. |
| LifecycleRuns.AgentRecoversForceReleased | agent/reconciler/host_reconciler.go:103-122 | One agent reconcile whose I/O works, the node reset included, returns a force-released host to the pool, pristine and physically clean. |
| LifecycleRuns.TwoReconcilesRecover | controllers/infrastructure/byomachine_controller.go:291-305 | Once its machine is being deleted, one machine reconcile and one agent reconcile whose I/O works, the node reset included, recover any unpaused host, stranded ones included. |
| LifecycleRuns.FinalizersKeptExactly | controllers/infrastructure/byomachine_controller.go:317-321 | A step keeps every held host backed by a machine with a finalizer if and only if it makes no claim without a stored finalizer. |
| LifecycleRuns.FinalizerDroppedExactly | controllers/infrastructure/byomachine_controller.go:249-315 | A reconcile lets its machine go if and only if it is being deleted and not paused, the patch lands, and every host with its label is itself being deleted, and unbound or past five minutes. |
| LifecycleRuns.DeletionOtherwise | controllers/infrastructure/byomachine_controller.go:270-305 | Otherwise the host that is not being deleted is marked, if its patch lands, and nothing else happens. |
| LifecycleRuns.ThreeReconcilesRelease | controllers/infrastructure/byomachine_controller.go:249-315 | After the two reconciles that recover the host, one more of the machine whose patch lands removes it. |
| LifecycleRuns.FinalizerOrdering | controllers/infrastructure/byomachine_controller.go:309-314 | In every such run, when the machine of a held host is gone, the agent removed the labels or the host object was deleted in between. |
| LifecycleRuns.NoInheritance | agent/reconciler/host_reconciler.go:1030-1064 | In every such run a machine that finds a live host under its label is the very machine that claimed it. |
| LifecycleRuns.LostFinalizerIsInherited | controllers/infrastructure/byomachine_controller.go:170-175 | Whenever a first claim loses the machine patch, deletion and re-creation give the host to the new machine. |
| LifecyclePhysical.PoolCleanKeptExactly | agent/reconciler/host_reconciler.go:477-541 | A step keeps running nodes out of the pool if and only if it registers no host whose node is up, and the reset of a cleanup that frees a host stops its node. |
| LifecyclePhysical.ExecKeepsPoolClean | agent/reconciler/host_reconciler.go:477-541 | In every run of such steps no claimable host has a running node, whatever patches are lost and however other resets end. |
| LifecyclePhysical.FailedResetIsDirty | agent/reconciler/host_reconciler.go:484-486 | Every marked, unpaused host with a running node returns to the pool with it when its reset has no effect and the rest of the cleanup works. |
| LifecyclePhysical.ReRegistrationIsDirty | agent/registration/host_registrar.go:47-101 | Deleting and re-registering an unbound host with a running node always makes the pool dirty. |
| LifecyclePhysical.NodesRecordedKeptExactly | agent/reconciler/host_reconciler.go:197-207 | A step keeps every running node recorded in the bootstrap condition if and only if its bootstrap patch lands, a failed bootstrap leaves no node, a landed cleanup stops the node whose condition it lowers, and it registers no running node. |
| LifecyclePhysical.ResetBetweenBootstraps | agent/reconciler/host_reconciler.go:130-226 | In every run with clean registrations, a node reset has run between a bootstrap whose patch landed and any later bootstrap of the host, whatever the resets achieve. |
| LifecyclePhysical.LostBootPatchBootsTwice | agent/reconciler/host_reconciler.go:152-226 | After a lost bootstrap patch the same reconcile bootstraps again on the running node, whether or not the machine-id file was written. |
| LifecyclePhysical.FilesKeptExactly | agent/reconciler/host_reconciler.go:222-226 | A step keeps every machine-id file naming the machine its host is labelled for if and only if a cleanup that frees a host with such a file can remove it and registrations find none. |
| LifecyclePhysical.MismatchUnreachable | agent/reconciler/host_reconciler.go:130-150 | In every run in which the cleanups that free a host with a machine-id file can remove it, and registrations find none, the mismatch branch is never taken. |
| LifecycleClock.ExecKeepsClock | controllers/infrastructure/byohost_controller.go:83-120 | After every run a running clock was started in the current cleanup episode, up to the second that the stored timestamp loses. |
| LifecycleClock.ForceReleaseNeverEarly | controllers/infrastructure/byohost_controller.go:83-157 | In every run a force release of a host not being deleted comes more than its timeout, less one second, after the marking. |
| LifecycleClock.RemarkKeepsClockRunning | controllers/infrastructure/byomachine_controller.go:922-939 | Marking a marked host neither restarts its clock nor opens a new episode. |
| LifecycleClock.DeletedWhilePausedStaysStuck | controllers/infrastructure/byomachine_controller.go:200-214 | In every continuation that does not delete the host, a host marked paused whose machine is being deleted stays out of the pool and its machine stays. |
| ClaimProtocol.ApplyKeepsInv | controllers/infrastructure/byomachine_controller.go:677-885 | Every step keeps the link between the snapshots of the calls and the versions of the stored objects. |
| ClaimProtocol.AcquisitionWaits | controllers/infrastructure/byomachine_controller.go:1725-1768 | An acquisition never takes over a readable lease younger than 30 s, however stale its snapshot. |
| ClaimProtocol.LeaseLaw | controllers/infrastructure/byomachine_controller.go:1725-1793 | Between any two acquisitions of one host's lease it was removed or made unreadable, or at least 30 s passed, whatever the cache returns. |
| ClaimProtocol.ClaimBindsExactly | controllers/infrastructure/byomachine_controller.go:771-884 | A claim patch that lands leaves the host bound to the claimant if and only if the host exists and, where the loaded object already named the claimant, it still does. |
| ClaimCache.EarlierObjectReadable | main.go:103-108 | In every run a read may return the stored object of a host and every object it has had before. |
| ClaimLeases.AccountKeptExactly | controllers/infrastructure/byomachine_controller.go:744-885 | A step leaves a lease of a call on a host with nobody to release it if and only if it is a reload that does not show a lease, a release that does not land, or the call is cut off. |
| ClaimLeases.IdleCallHoldsNoLease | controllers/infrastructure/byomachine_controller.go:677-888 | In every run, whatever others do, an idle call has no lease on a host if, while it had one there, its reload showed a lease, no release of it failed and it was not cut off. |
| ClaimRefinement.WindowExclusive | controllers/infrastructure/byomachine_controller.go:744-758 | Two calls are never both within the 30 s of a lease on the same host. |
| ClaimRefinement.UnclaimedIsFree | controllers/infrastructure/byomachine_controller.go:694-716 | If nobody put another reference on the host since it was judged orphaned, the reference that is cleared has no wanted owner. |
| ClaimRefinement.StepRefines | controllers/infrastructure/byomachine_controller.go:677-885 | Every timely protocol step is an action of an allocator that binds a host only when it is free, or leaves the allocator alone. |
| ClaimRefinement.ClaimExclusivity | controllers/infrastructure/byomachine_controller.go:677-885 | Hence every step of every timely run is an allocator action. |
| ClaimRefinement.LiveOwnerKeepsHost | controllers/infrastructure/byomachine_controller.go:694-742 | In every timely run a machine that stays wanted loses its host only to a mark, a cleanup or the removal of the host. |
| ClaimHazards.LateClaimDisplaces | controllers/infrastructure/byomachine_controller.go:744-866 | For any machines and host, a run in which a claimant that stalls for 30 s displaces a wanted owner. |
| ClaimHazards.LateReleaseDisplaces | controllers/infrastructure/byomachine_controller.go:1771-1793 | For any machines and host, a run in which a release after 30 s takes off the lease of the next holder, whose claim then displaces a wanted owner. |
| ClaimHazards.LostLeaseDisplaces | controllers/infrastructure/byomachine_controller.go:922-939 | For any machines and host, runs in which a cleanup mark, or an unreadable annotation, within the 30 s of a lease leads to a displacement. |
| ClaimHazards.ReRegistrationDisplaces | controllers/infrastructure/byomachine_controller.go:760-866 | For any machines and host, a run in which the host is registered anew within the 30 s and a claim displaces a wanted owner. |
| ClaimHazards.UncheckedClearDisplaces | controllers/infrastructure/byomachine_controller.go:703-716 | For any machines and host, a run in which the unchecked clearing of a stale reference erases the reference to a wanted owner. |
| ClaimHazards.UncheckedRefetchDisplaces | controllers/infrastructure/byomachine_controller.go:703-724 | For any machines and host, a run in which the unchecked re-read after clearing a stale reference displaces a wanted owner. |
| ClaimHazards.LaggingLookupDisplaces | controllers/infrastructure/byomachine_controller.go:694-716 | For any machines and host, a run in which a machine lookup that lags behind erases the reference to a wanted owner. |
| ClaimHazards.LaggingReloadLeavesLease | controllers/infrastructure/byomachine_controller.go:760-884 | For any machines and host, a run without a failed release or a cut-off call after which an attached, idle call still has its lease on the host, because its reload lagged behind. |
| HostSelection.Selector.SelectHostForClaim | controllers/infrastructure/byomachine_controller.go:1805-1864 | The filtering, maximum and collecting loops and the index update equal the selection function. |
| HostSelection.TopExactly | controllers/infrastructure/byomachine_controller.go:1830-1845 | The top class holds exactly the eligible hosts of non-negative priority that no eligible host outranks. |
| HostSelection.EligibleExactly | controllers/infrastructure/byomachine_controller.go:1808-1828 | A host is eligible if and only if it is listed and unbound and has as much of every required resource as is asked; a missing priority is zero. |
| HostSelection.SelectionOptimal | controllers/infrastructure/byomachine_controller.go:1805-1864 | A chosen host is listed and unbound, has as much of every required resource as is asked, and no such host outranks it. |
| HostSelection.SelectionFailsExactly | controllers/infrastructure/byomachine_controller.go:1849-1863 | Nothing is chosen if and only if no host is eligible; the index is out of range if and only if all eligible priorities are negative or the stored index is not below the class size. |
| HostSelection.PanicsAgainExactly | controllers/infrastructure/byomachine_controller.go:82-85 | After a panic and a restart with an empty index the same pool panics again if and only if all its eligible priorities are negative. |
| HostSelection.ShrunkPoolPanics | controllers/infrastructure/byomachine_controller.go:1849-1863 | With two equal hosts, taking the first makes the next selection panic. |
| HostSelection.IndexCountsOwnCalls | controllers/infrastructure/byomachine_controller.go:1849-1863 | Over every run of calls a cluster's index counts its own calls around its class, whatever other clusters do in between. |
| HostSelection.RoundRobin | controllers/infrastructure/byomachine_controller.go:1849-1863 | The n-th call of a cluster on a steady top class returns its host number i + n, cyclically. |
| HostSelection.EachPositionOnce | controllers/infrastructure/byomachine_controller.go:1858-1863 | Among any k consecutive turns each of the k positions comes exactly once. |
| HostSelection.NextCallSafeExactly | controllers/infrastructure/byomachine_controller.go:1855-1863 | After a choice the index is below the class size, and the next call of the cluster succeeds if and only if its class is larger than that index. |
| HostSelection.NoPanicWhileNotShrinking | controllers/infrastructure/byomachine_controller.go:1849-1863 | Over every run of calls, whatever other clusters do, a cluster whose class never shrinks from one of its calls to the next never panics, and its index is below the class size whenever it is read. |
| HostSelection.FreshIndexIsLow | controllers/infrastructure/byomachine_controller.go:1849-1853 | A new process starts below every class that has a host of non-negative priority. |
| AttachOutcome.PatchedExactly | controllers/infrastructure/byomachine_controller.go:684-884 | An attempt attaches if and only if the first read is answered; the reference is absent, of a machine being deleted, or of one that is gone and the host is read again; no lease under 30 s is on the object tried; the Update reaches that very object; the reload is answered; the helper and, in the TLS mode, the secret work; and the patch lands. |
| AttachOutcome.EndsExactly | controllers/infrastructure/byomachine_controller.go:684-884 | Each of the eleven ends of an attempt with the condition under which it ends so, on the reads, the writes and the store at the time. |
| AttachOutcome.CalmAttempt | controllers/infrastructure/byomachine_controller.go:684-884 | With nobody interfering and up-to-date reads, an attempt on an attachable host ends as helper, secret and patch decide, leaves no lease, and changes that host only: claimed if it attaches, and otherwise as it was, up to a cleared stale reference. |
| AttachOutcome.CalmAttemptAttaches | controllers/infrastructure/byomachine_controller.go:684-884 | If these work too it attaches, and the host stored has every field of the claim, no lease, and its other fields as they were. |
| AttachSpec.ClaimPatchFields | controllers/infrastructure/byomachine_controller.go:771-870 | A claim patch over whatever is stored by then leaves the fields that a claim does not touch to those who wrote them, and sets each field of the binding unless the loaded object had it already. |
| AttachAttempt.Caller.TryAcquireLease | controllers/infrastructure/byomachine_controller.go:1725-1768 | The lease is acquired exactly as the specification says: no readable lease younger than 30 s on the object, and an Update that reaches this very version; either way the code has made the protocol's steps and left no lease to itself. |
| AttachAttempt.Caller.Reload | controllers/infrastructure/byomachine_controller.go:760-768 | The reload after the acquisition is the protocol's, with any object the cache may return; a lease of the call is left to itself only if the object shows none. |
| AttachAttempt.Caller.ReleaseLease | controllers/infrastructure/byomachine_controller.go:1771-1793 | The call stands idle afterwards, and a lease of it is left on the host only if the release failed. |
| AttachAttempt.Caller.ClaimLoaded | controllers/infrastructure/byomachine_controller.go:771-884 | The result and the store after it are exactly the specified ones; each of the four exits after the reload releases the lease, and success means that the history has the call's claim of this host. |
| AttachAttempt.Caller.Try | controllers/infrastructure/byomachine_controller.go:684-884 | An attempt attaches if and only if all that it needs is there, and its result and the store after it are exactly the specified ones; every exit leaves the call idle and a lease of it only if its release failed or its reload showed no lease, and all its API calls, interleaved with whatever others do, are a run of the claim protocol. |
| AttachLoop.Attacher.AttachByoHost | controllers/infrastructure/byomachine_controller.go:677-888 | Every attempt ends, and leaves the store, as specified; the five-attempt loop has the specified outcome, log of attempts and sleeps, and index; its API calls are a run of the claim protocol; leases of the call are left only on hosts on which a release failed or a reload showed no lease; success means that the history has the claim of the returned host; and a calm first attempt on an attachable host attaches it. |
| AttachLoop.LoopEndsExactly | controllers/infrastructure/byomachine_controller.go:677-888 | The first attempt without a host, with a panic, that attaches or that lacks its secret ends the loop with that outcome, and if there is none the loop is exhausted. |
| AttachLoop.MadeExactly | controllers/infrastructure/byomachine_controller.go:684-884 | Each attempt of the loop attaches if and only if all that it needs is there in the store that the earlier ones have left. |
| AttachLoop.TotalSleep | controllers/infrastructure/byomachine_controller.go:1797-1802 | After f failed attempts the call has slept (2^(f-1) - 1) * 100 ms. |
| AttachLoop.SleepBound | controllers/infrastructure/byomachine_controller.go:677-888 | A call sleeps at most 1.5 s, and exactly that when all five attempts fail. |
| AttachLoop.TargetsAreChoices | controllers/infrastructure/byomachine_controller.go:677-692 | The hosts tried are the hosts offered, in order, at most one per attempt, and success is on the last. |
| AttachLoop.RetryCoverage | controllers/infrastructure/byomachine_controller.go:646-692 | Attempts go to pairwise distinct top hosts until all were tried, and a call that gives up has tried every top host if they are no more than the attempts. |
| InstallerHandshake.MachineScope.ReconcileNormal | controllers/infrastructure/byomachine_controller.go:353-413 | The path from unpausing over the installer config, readiness, attach and secret to the node, with the condition reason each exit leaves. |
| InstallerHandshake.MachineScope.Reconcile | controllers/infrastructure/byomachine_controller.go:170-217 | Pause overwrites the reason, deletion leaves it, and a lost deferred patch loses only the reason. |
| InstallerHandshake.K8sInstallerConfig.StoreInstallationData | controllers/infrastructure/k8sinstallerconfig_controller.go:322-339 | Create or update, then reference and Ready; a failed write leaves all three as they were. |
| InstallerHandshake.K8sInstallerConfig.Reconcile | controllers/infrastructure/k8sinstallerconfig_controller.go:59-145 | Finalizer first, then deletion, then the gate on pause, reason and Ready, then the secret; equal to the step function whether or not the patch lands. |
| InstallerHandshake.MachineStepExactly | controllers/infrastructure/byomachine_controller.go:353-465 | From what a reconcile meets: when the machine is attached, when its host has the secret, when the config is created, and which reason it gives at each exit, the node's included, of which only the reason is lost with the patch. |
| InstallerHandshake.ConfigStepExactly | controllers/infrastructure/k8sinstallerconfig_controller.go:59-145 | The secret is written if and only if the config is neither deleted nor Ready, the machine is found, unpaused and waiting for it, and installer and write work; finalizer, reference and Ready follow with the patch. |
| InstallerHandshake.ReadyNamesStoredSecret | controllers/infrastructure/k8sinstallerconfig_controller.go:322-339 | In every run a Ready config names its secret, and that secret is stored. |
| InstallerHandshake.HostNamesStoredSecret | controllers/infrastructure/byomachine_controller.go:596-624 | In every run in which no secret of a deleted config was collected, the secret that a host names is stored. |
| InstallerHandshake.LiveKeptExactly | controllers/infrastructure/k8sinstallerconfig_controller.go:133-142 | A step keeps the installer's gate open for a waiting host if and only if it is not a landed pause, a landed loss of readiness, an attach whose patch is lost, or the deletion of a Ready config after the reason is gone. |
| InstallerHandshake.NoDeadlock | controllers/infrastructure/byomachine_controller.go:387-413 | In every run with the machine unpaused, readiness steady and machine patches landing, the machine of a host without its secret has the reason InstallationSecretNotAvailable, also when configs are deleted. |
| InstallerHandshake.TwoReconcilesDeliver | controllers/infrastructure/byomachine_controller.go:596-624 | From wherever such a run leaves a waiting host, one good reconcile of each controller gives it the secret. |
| InstallerHandshake.StuckUntilDetached | controllers/infrastructure/byomachine_controller.go:387-395 | A waiting host behind a closed gate stays so in every run without a detachment. |
| InstallerHandshake.PauseStrands | controllers/infrastructure/byomachine_controller.go:200-209 | One landed pause of any waiting host keeps the secret from it in every run until it is detached. |
| ProviderId.AcceptedExactly | common/utils.go:84-97 | The pattern's language: prefix, a text that the name matches with its dots as wildcards, and nothing or a slash with a one-line suffix. |
| ProviderId.GeneratedAccepted | common/utils.go:79-97 | Every DNS-style host name accepts the ID generated for it. |
| ProviderId.DotFreeAcceptedExactly | common/utils.go:84-97 | A dot-free name accepts exactly its own ID, alone or with a slash and a non-empty one-line suffix. |
| ProviderId.IdNamesOneHost | common/utils.go:84-97 | An ID accepted for two dot-free hosts is accepted for one and the same host. |
| ProviderId.RejectsOthersExactly | common/utils.go:84-97 | A host rejects the IDs generated for all other hosts if and only if its name has no dot. |
| ProviderId.Node.SetNodeProviderID | controllers/infrastructure/byomachine_controller.go:533-563 | A node that is not found is an error; a present ID is returned or refused and never changed; an absent one is set to the generated ID when the patch succeeds. |
| ProviderId.ServedExactly | controllers/infrastructure/byomachine_controller.go:533-563 | A call fails if and only if the Node is missing, its ID is rejected or the patch of an absent ID fails; only an absent ID is changed, to byoh:// and the name; and what is returned is what the Node has. |
| ProviderId.ReturnedIdKept | controllers/infrastructure/byomachine_controller.go:533-563 | The node keeps the ID that one call returned, and every later call of the run that finds the node returns it. |
| ProviderId.RejectedForever | controllers/infrastructure/byomachine_controller.go:540-552 | Later calls fail for good if and only if the node came with an ID that the host rejects. |
| AgentFlags.LabelFlags.String | agent/main.go:49-55 | The printing loop gives the joined pairs for whatever order the map is iterated in. |
| AgentFlags.LabelFlags.Set | agent/main.go:59-86 | The parsing loop equals the specification, with skipped empty pieces and with the pairs before an error kept. |
| AgentFlags.ParseExactly | agent/main.go:59-86 | A value with a comma is a list of pieces, and any other must be one pair, so that an empty one is rejected. |
| AgentFlags.ParseFailsExactly | agent/main.go:62-72 | A list is rejected if and only if one of its pieces is neither empty nor has an equals sign. |
| AgentFlags.LastPairWins | agent/main.go:62-76 | Of several pairs for a key the last one wins, and keys that no pair names keep their values. |
| AgentFlags.ErrorKeepsEarlier | agent/main.go:62-72 | A rejected list leaves what the pieces before the first bad one have set. |
| AgentFlags.SplitJoin | agent/main.go:61-63 | Splitting undoes joining for pieces free of the separator. |
| AgentFlags.RoundTripExactly | agent/main.go:49-86 | Parsing the printed form into an empty map gives the map back, for every iteration order, if and only if it is not empty, keys are trimmed and free of '=' and ',', and values are trimmed and free of ','. |
| KubeadmConfig.Inject | agent/cloudinit/cloudinit.go:76-125 | The in-place edits of the nested maps equal the injection function, which leaves every tree alone on a host without a name. |
| KubeadmConfig.InjectionIdempotent | agent/cloudinit/cloudinit.go:78-125 | On every tree a second injection changes nothing, even if labels are iterated in another order. |
| KubeadmConfig.InjectionAddsOnly | agent/cloudinit/cloudinit.go:90-121 | On every path, data in the new tree was there before, or sits at one of the three injected keys where there was nothing. |
| KubeadmConfig.InjectionKeepsDataExactly | agent/cloudinit/cloudinit.go:76-88 | No data is lost on any path if and only if the host has no name, or nodeRegistration and kubeletExtraArgs are absent, null or maps. |
| KubeadmConfig.TaintReadsBack | agent/cloudinit/cloudinit.go:106-119 | The text of a taint reads back as key, value, for which the key stands in, and effect. |
| KubeadmConfig.KubeletArgs | agent/reconciler/host_reconciler.go:869-904 | The kubelet flags of the TLS mode: provider ID always, labels and taints when there are any. |
| KubeadmConfig.JoinModesAgree | agent/reconciler/host_reconciler.go:869-904 | Where the keys were absent, both join modes give the same provider ID if and only if the host has a name, and then the same taint string and the same label pairs up to order; without a name the kubeadm mode gives none of the three. |

## Left out

- LifecycleBinding.OneHostPerMachine: the reads of the lifecycle machine are up to date; `AttachKeepsUniqueExactly` shows what a lagging lookup does.
- ClaimRefinement.ClaimExclusivity: assumes timely runs; `ClaimHazards` has a displacement for each condition of timeliness, but not every untimely run displaces an owner, so the condition is sufficient and not exact.
- HostController.ForceReleaseDeadline: is about Nodes that are not found or can be deleted; while the deletion of a Node fails the code returns an error, and there is no deadline.
- InstallerHandshake.NoDeadlock: follows one machine with one installer config and one host at a time.
- AttachAttempt.Caller.Try: the steps of others between two API calls are steps of the claim protocol with any content in the other fields; edits of references and leases by hand that no controller makes are not among them.
- HostAgent.Agent.ReconcileDelete: whether the text of an error reads as permanent is an input; the delay of a retry is not modelled.
- KubeadmConfig.Inject: works on the parsed tree; the guard on the file's path, parsing and printing of YAML are library work.
- ProviderId.AcceptedExactly: names whose only regular-expression character is the dot; other metacharacters cannot occur in object names.
- Node labels synchronised into spec.labels: they survive a cleanup in the code and in the model, and no property is claimed about them.
- The claim protocol machine and the lifecycle machine are separate: the first interleaves the single API calls of attach calls, the second whole reconciles; no lemma connects their states.
- The work queue, watches and event filters: a step may happen at any time, so progress is stated as what one or two steps achieve.
- Status fields that no decision reads (addresses, host info, network status), events, metrics and logs.
- Secret contents: bootstrap secrets, kubeconfigs, certificates and tokens are opaque values.
- The TLS bootstrap secret assembly, the certificate signing requests and the BootstrapKubeconfig controller.
- Installer creation and the install scripts: success or failure of a step.
- The ByoCluster and ByoMachineTemplate controllers and the drift detector: one-branch logic or operating-system calls.
- Scale-from-zero annotations: the code only logs what it computes from them.
