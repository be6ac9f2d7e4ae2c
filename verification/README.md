# Reconcile protocols of the workspace controller

A Dafny model of the parts of the workspace controller in which several actors change the same
Kubernetes objects: disk claims, the Windows guest lifecycle, the execution epoch and its bootstrap
documents, the VM comparison, catalog sync, the local-admin bootstrap and user grants; and of four
transformations that must not lose anything: the cloud-init pipeline, its delivery, the container-init
wrapper and shell quoting.

Every protocol is a step machine over a small API server (`ApiServer`): named objects with a UID that
is never reused and a resourceVersion that changes with every write; create fails on a taken name,
update succeeds only on the version the writer read, delete takes an optional precondition. One event is
one API call of the controller with the local decisions that follow it, or something another actor does;
the controller may crash between any two calls. `Run` folds the machine over a list of events, so a
lemma about `Run(EMPTY, trace)` for every `trace` is a statement about every reachable state of every
interleaving. Beside the machines stand the controller's methods themselves (`VmDiskClaims`,
`ManagementRounds`, `WindowsRounds`, `LocalAdminRounds`): imperative code in the controller's own shape
that lets the other actors act before each call and makes its own creates, updates and deletes on the
stored objects. After every call it has to prove that the objects are what the machine says they are; only
program counters and history come from the machine. So each execution is a run of the machine, and all results
about runs carry over to it.

| file | content |
|---|---|
| `ApiServer.dfy`, `Text.dfy` | the API server; splitting at slashes, lexicographic order |
| `VmDisks.dfy`, `VmDiskClaims.dfy` | ownership of VM data disks; the claim loops |
| `VmDiskAlone.dfy` | exactly when a claimer left alone succeeds |
| `VmDiskOrder.dfy`, `VmDiskCircles.dfy` | who waits for whom; exactly when somebody can wait in a circle |
| `WindowsGuest.dfy`, `WindowsRounds.dfy` | generations, bootstrap Secret, detach, stop, reboot, reset, GPU guard |
| `WindowsProgress.dfy`, `WindowsReset.dfy`, `WindowsPendingReset.dfy` | uninterrupted Windows rounds: ending, stopping, provisioning; resets; what a pending reset prevents |
| `WindowsOutcome.dfy` | exactly what one uninterrupted Windows round does and reports |
| `WindowsGpu.dfy`, `WindowsStatus.dfy` | the hardware map the GPU guard compares; the status rewrite |
| `ManagementIdentity.dfy`, `ManagementRounds.dfy` | execution epoch and management bootstrap documents |
| `ManagementAlone.dfy` | exactly when an epoch is settled and a document issued |
| `VmComparison.dfy`, `VmFields.dfy` | "does this VM still carry what we want" over arbitrary JSON trees; the same field by field |
| `CloudConfig.dfy`, `CloudInitDelivery.dfy`, `ShellQuote.dfy` | user-data: merge, delivery, quoting |
| `ContainerInit.dfy` | argument wrapping of the container runner |
| `LocalAdmin.dfy`, `LocalAdminRounds.dfy`, `LocalLogin.dfy` | the resumable bootstrap of the local administrator; the login it is for |
| `Catalog.dfy`, `CatalogOutcome.dfy`, `UserGrants.dfy` | image catalog sync and what it does file by file; RoleBindings of a User |

The safety results say what no run does; beside them each machine has results that say exactly what is achieved when
nobody interferes, with conditions on the stored fields themselves, so that a controller that refused more or did less
than this one would not satisfy them.

`dafny verify dfyconfig.toml` checks the whole project.

## Assumptions

- Reads return the stored object. Reconciles of one Windows workspace do not overlap; everything else
  interleaves freely.
- Hash-derived names are represented by the string that is hashed, that is, hashing is taken as
  injective. Random values (UUIDs, passwords, tokens) are inputs; where the code draws a new UUID it is
  one not drawn before.
- Disks: nobody but a claimer edits the owner annotation, and a new disk may only name an owner whose
  UID has been issued. Workspace names contain no slash (Kubernetes names do not).
- Windows: only the controller writes or deletes the bootstrap Secrets it owns, creates the VM, moves the
  generation and its marks, and consumes a reset. KubeVirt creates a VMI only for a VM that is not
  halted. Users may edit the VM's run field and hardware, and the user-facing fields of the Workspace, at
  any moment.
- Epochs: the status of a Workspace is written only by the controller's own writers; nothing relies on
  schema validation. UIDs contain no slash, and time does not run backwards.
- Cloud-init delivery: the API server and KubeVirt do not rewrite the volumes of the VM.
- `yaml.Unmarshal` of a text that holds no document (the bare `#cloud-config` header, comments only) leaves the
  empty map it is given as it is. The library is `sigs.k8s.io/yaml` (go.mod:16), which is not part of the repository; it
  decodes a null document through an interface, so that the caller's map is not touched.
- `equality.Semantic.DeepDerivative` comes from a library outside the repository; `VmComparison.Derivative`
  states its rules for unstructured objects.

## Where a stronger claim fails

- Sorted claiming prevents circular waiting as long as no Workspace has a gap, that is, an unheld mount that sorts
  before a disk it holds. From any reachable state a steady continuation can end in circular waiting if and only if
  there is a gap, or a claim loop under way is going to make one (`VmDiskCircles.CircleExactlyFromGap`). Gaps come
  from deleting a disk that is held, from editing a mount list, and from creating a disk that names a live owner
  (`VmDiskCircles.DeletedDiskClosesCycle`, `VmDiskCircles.EditedMountsCloseCycle`,
  `VmDiskCircles.PreOwnedDiskClosesCycle`).
- A pending reset does not stop a round that is already under way: with the reset pending, the controller can still
  create a VM or turn one on if and only if an older round has its write or create of the VM ahead
  (`WindowsPendingReset.TurnsOnExactly`, `WindowsPendingReset.OlderRoundTurnsOn`).
- A workspace that its user stops after the round's read is still reported ready by that round
  (`WindowsProgress.StoppedWhileReporting`); without such an edit it is not stopped or rebooting
  (`WindowsGuest.ReadyIsOnUnlessEdited`).
- handleReset looks only at `spec.running`. A reset is consumed if and only if the VM is not on a run strategy with a
  VMI and the generation's Secret is not somebody else's (`WindowsReset.ResetIsConsumed`); a VM on runStrategy
  Always with its VMI is waited for for ever (`WindowsReset.StrategyResetWaitsForever`).
- The deletion in a reset carries no precondition. At the check for the VMI, every continuation in which nobody turns
  the VM on deletes it without a VMI if and only if it is halted then (`WindowsReset.DeleteOnlyWithoutVmi`). A VM
  turned on after the check, and a VM on a run strategy that nobody touches, can be deleted with their VMI
  (`WindowsReset.TurnedOnVmIsDeleted`, `WindowsReset.StrategyVmIsDeleted`).
- The VM comparison, too, looks only at `spec.running`. A stop reaches a VM with unchanged hardware if and only if its
  run field is the one the controller writes, it is halted already, or something else makes the round write it
  (`WindowsProgress.StopExactly`, `WindowsProgress.StopNeedsRunField`, `WindowsProgress.StrategyVmIsNotStopped`).
- The VM comparison does not see all of the hardware the GPU guard compares: an extended resource nobody asked for
  stays (`WindowsGpu.ExtraResourceIsTolerated`). Quiet means equal hardware if and only if the device lists are equal
  and nothing extra is there (`WindowsGpu.QuietHardwareExactly`).
- The cloud-init pipeline keeps a managed entry of the image exactly when its stage is idle or the image
  wrote it as a list; any other value is replaced (`CloudConfig.PipelinePreserves`,
  `CloudConfig.ScalarBootcmdIsReplaced`).
- "No update needed" is not equality of specs: a key the desired VM does not mention is invisible nearly everywhere
  (`VmComparison.UnwantedKeyIsInvisible`, `VmComparison.QuietIsNotEquality`).
- A binding of somebody else is left alone exactly when it does not sit under a name the User's reconcile
  writes: one with the same role under that name is adopted (`UserGrants.ForeignBindings`,
  `UserGrants.HandMadeBindingIsAdopted`). Clean-up goes by namespace, not by binding (`UserGrants.CleanupIsPerNamespace`).
- A complete attempt of the bootstrap ends with a usable administrator if and only if one was usable before or the
  account can be created or resumed and is not locked (`LocalLogin.RecoveryExactly`). An AuthConfig without a UID
  cannot resume an interrupted bootstrap (`LocalAdmin.NoUidNoResume`).
- The status rewrite is quiet exactly when no two stored conditions have one meaning and different times
  (`WindowsStatus.QuietExactly`); unique pod condition types are enough for that, and a pod that reports one
  condition twice shows the loop (`WindowsStatus.TwiceReportedIsNotQuiet`).

## Model

| member | source | states |
|---|---|---|
| `ApiServer.SnapshotEvolves` | internal/controller/vm_disks.go:105-107 | optimistic concurrency: whatever any number of other calls do, a resourceVersion once read names one content for ever, so a conditional write acts on what was read |
| `ApiServer.GoneEvolves` | internal/controller/vm_disks.go:84-93 | an incarnation (name and UID) found gone stays gone |
| `ApiServer.EvolvesTransitive` | internal/controller/vm_disks.go:69-108 | what others may do between two calls composes: many calls are one evolution |
| `ApiServer.CallsEvolve` | internal/controller/vm_disks.go:69-108 | every create, conditional update and conditional delete is such an evolution |
| `ApiServer.CallsExactly` | internal/controller/imagerepository_controller.go:261-276 | create, conditional update and conditional delete by their effect: what each refuses without a change, and the one object it changes otherwise |
| `Text.SplitJoined` | internal/controller/vm_disks.go:85 | splitting "name/uid" at the first slash gives back exactly a slash-free name and whatever follows |
| `VmDisks.OwnerInjective` | internal/controller/vm_disks.go:83-85 | the owner annotation determines Workspace name and UID, is read back exactly and is never empty |
| `VmDisks.RunKeepsInv` | internal/controller/vm_disks.go:68-109 | in every interleaving of claimers, crashes and environment: claims are exclusive, in-flight copies are versions that cannot reappear changed, and a displaced owner is gone from the check to the write |
| `VmDisks.DiskMutualExclusion` | internal/controller/vm_disks.go:68-109 | two live Workspaces that both completed a claim on the same disk object are the same Workspace, and the annotation names it |
| `VmDisks.OwnershipMovesOnlyFromTheDead` | internal/controller/vm_disks.go:84-107 | an owner annotation changes only by a claimer's conditional write on a usable disk, to that claimer, and only when the former owner's exact name and UID is not live at that write |
| `VmDisks.TakeoverSawNoOwner` | internal/controller/vm_disks.go:86-93 | before a takeover there was a moment at which no Workspace fitted the recorded owner, with or without a recorded UID |
| `VmDisks.TakeoverSawNoVmi` | internal/controller/vm_disks.go:94-100 | and a later one at which the former owner's VMI was absent and the owner already gone |
| `VmDiskAlone.OwnerReadExactly` | internal/controller/vm_disks.go:84-93 | in every reachable state, looking for the owner refuses the disk if and only if the annotation names a Workspace that exists, with its UID, or by name if no UID is recorded |
| `VmDiskAlone.VmiReadExactly` | internal/controller/vm_disks.go:94-100 | looking for the VMI refuses it if and only if the recorded Workspace has one |
| `VmDiskAlone.WriteExactly` | internal/controller/vm_disks.go:102-107 | the write is made if and only if the disk still has the version that was read, changes only the owner, and otherwise sends the claimer back or ends it |
| `VmDiskAlone.ClaimExactly` | internal/controller/vm_disks.go:68-109 | from every reachable state, a claimer left alone goes on past its disk, with itself written as owner, if and only if the disk is a usable platform disk that is its own, nobody's, or of an owner that is gone and has no VMI; otherwise it gives up and nothing is written |
| `VmDiskAlone.ClaimAllExactly` | internal/controller/vm_disks.go:47-66 | the whole claim loop, left alone, succeeds if and only if every mount ahead of it is claimable |
| `VmDiskAlone.BeginExactly` | internal/controller/vm_disks.go:47-55 | a claim loop starts with the stored Workspace at its first mount in sorted order, and is done at once without mounts |
| `VmDiskOrder.SteadyRunKeepsOrder` | internal/controller/vm_disks.go:47-66 | from any state without gaps and threats: as long as mount lists stay, no held disk is deleted and no new disk names a live owner, there never is one |
| `VmDiskOrder.ChainDoesNotClose` | internal/controller/vm_disks.go:47-66 | without gaps, at the end of any chain of Workspaces, each blocked on a disk the next one holds, nobody waits for the first disk |
| `VmDiskOrder.NoWaitCycle` | internal/controller/vm_disks.go:47-66 | in every such run there is never a cycle of Workspaces each blocked on a disk the next one holds, for any number of disks and claimers |
| `VmDiskCircles.GapClosesCycle` | internal/controller/vm_disks.go:47-66 | the converse: from any state with a gap, a continuation of the same kind ends in circular waiting |
| `VmDiskCircles.ThreatMakesGap` | internal/controller/vm_disks.go:56-66 | a claim loop under way that no longer has an unheld mount ahead of it can be brought, by steady steps, to hold a later disk: a gap |
| `VmDiskCircles.CircleExactlyFromGap` | internal/controller/vm_disks.go:47-66 | in every reachable state, circular waiting can come about by steady steps if and only if some Workspace has a gap or some claim loop under way threatens to make one |
| `VmDiskOrder.RefusedClaimerIsBlocked` | internal/controller/vm_disks.go:86-90 | a claimer that meets a live owner gives up and is blocked in exactly the sense of the waiting chains |
| `VmDiskCircles.DeletedDiskClosesCycle` | internal/controller/vm_disks.go:47-66 | a concrete run in which only the deletion of a held disk is not steady goes on to circular waiting |
| `VmDiskCircles.EditedMountsCloseCycle` | internal/controller/vm_disks.go:51-55 | the same for a mount added to a list |
| `VmDiskCircles.PreOwnedDiskClosesCycle` | internal/controller/vm_disks.go:81-84 | the same for a new disk that names a live Workspace |
| `VmDiskClaims.SortNames` | internal/controller/vm_disks.go:51-55 | the claim order is a sorted permutation of the mount names |
| `VmDiskClaims.ControlPlane.ClaimVMDataVolume` | internal/controller/vm_disks.go:68-109 | the retry loop under arbitrary interference: success means a completed claim for this disk and Workspace |
| `VmDiskClaims.ControlPlane.TryClaim` | internal/controller/vm_disks.go:69-108 | one attempt, making its own reads and its own write, is a run of the claim machine; a conflict leaves the claimer where it began |
| `VmDiskClaims.ControlPlane.OwnerIsGone` | internal/controller/vm_disks.go:84-100 | the two reads that may release an owned disk bring the claimer to its write; they refuse only where the claim machine, too, ends the claim |
| `VmDiskClaims.ControlPlane.WriteOwner` | internal/controller/vm_disks.go:105-107 | the conditional write, made by the method on the stored disk: accepted, it completes the claim; a conflict starts over |
| `VmDiskClaims.ControlPlane.ClaimVMDisks` | internal/controller/vm_disks.go:47-66 | success means a completed claim for every mount the Workspace had when it was read |
| `VmComparison.DerivativeIsPathwise` | internal/controller/workspace_controller.go:1896-1900 | the recursive comparison is the same as: at every path of the desired tree the current tree has a node of that kind, with that value if it is a non-empty scalar |
| `VmFields.UpdateDueExactly` | internal/controller/workspace_controller.go:1889-1929 | the whole comparison field by field: no update is due if and only if the running flag agrees, every demand of the template is met, each of the nine owned lists has equally many and matching elements, and the sound device is in both and matching, or in neither |
| `VmFields.RootDiskSizeIsSeen` | internal/controller/workspace_controller.go:1904-1919 | for instance a root disk template of another size makes an update due |
| `VmComparison.QuietAfterUpdate` | internal/controller/workspace_controller.go:628-653 | after the spec is written the comparison is quiet, converging twice is converging once, and nothing but the spec was replaced |
| `VmComparison.QuietUnderDefaulting` | internal/controller/workspace_controller.go:1886-1929 | under any defaulting of the stored spec that adds map keys at any depth, whatever metadata and status are, the comparison is quiet if and only if no owned list, sound device or running flag was invented |
| `VmComparison.NoUpdateLoop` | internal/controller/workspace_controller.go:628-653 | so it is after an update of any stored VM followed by defaulting, and after a create |
| `VmComparison.QuietMeansDelivered` | internal/controller/workspace_controller.go:1889-1929 | when quiet, every non-empty desired leaf of the template is in the current VM, owned lists have exactly the desired length and the running flag agrees |
| `VmComparison.UnwantedKeyIsInvisible` | internal/controller/workspace_controller.go:1889-1929 | for every desired and current VM, a key the desired one does not mention, off the owned, sound and running paths, makes no difference to the comparison |
| `VmComparison.SelectorIsTolerated` | internal/controller/workspace_controller.go:1895-1900 | in particular any nodeSelector left in the pod template |
| `VmComparison.QuietIsNotEquality` | internal/controller/workspace_controller.go:1895-1900 | quiet does not mean equal specs |
| `VmComparison.FingerprintSeesRemovals` | internal/controller/workspace_controller.go:1939-1957 | with the template fingerprint, after a write and any defaulting, an update is due if and only if the desired template differs from the applied one |
| `VmComparison.TemplateUpdateExactly` | internal/controller/workspace_controller.go:1950-1957 | an update is due if and only if the template was not written in this form, or a demand of it is no longer met at its path |
| `WindowsGpu.AddSection` | internal/controller/vm_windows_gpu.go:131-142 | visiting one resource section in any order adds exactly its extended resources to the map |
| `WindowsGpu.Hardware` | internal/controller/vm_windows_gpu.go:123-144 | the map holds exactly the device list and the extended resources of both sections, under unambiguous keys |
| `WindowsGpu.SameHardware` | internal/controller/vm_windows_gpu.go:149-152 | two maps are equal if and only if device lists and all extended resources agree |
| `WindowsGpu.GuardSeesExactly` | internal/controller/vm_windows_gpu.go:123-152 | the guard's maps are equal if and only if the device lists are and every resource with a slash in its name has the same quantity, or is absent, in both VMs, under requests and under limits |
| `WindowsGpu.QuietCarriesHardware` | internal/controller/workspace_controller.go:1896-1920 | a quiet comparison means matching device lists and every extended resource that is asked for |
| `WindowsGpu.ExtraResourceIsTolerated` | internal/controller/workspace_controller.go:1896-1900 | but one more extended resource leaves it quiet while the hardware differs |
| `WindowsGpu.QuietHardwareExactly` | internal/controller/vm_windows_gpu.go:149-152 | for a quiet pair the hardware maps agree if and only if the device lists are equal, the current VM has no extended resource that is not asked for, and values the comparison skips (null, empty, structures) agree |
| `WindowsGuest.RunKeepsInv` | internal/controller/vm_windows_guest.go:359-587 | the lifecycle invariant over marks, Secrets, VM and the controller's in-flight copy holds in every run with crashes at any call |
| `WindowsOutcome.RoundExactly` | internal/controller/workspace_controller.go:541-653 | from every reachable state without a pending reset, exactly what an uninterrupted round leaves behind: the marks, the Secret, the VM (created, written or left) and the report, in terms of the stored fields and the checks that pass |
| `WindowsOutcome.ResolveExactly` | internal/controller/vm_windows_guest.go:249-298 | the first round hands out the generation and does nothing else |
| `WindowsOutcome.RebootFinishes` | internal/controller/vm_windows_guest.go:567-580 | with a VMI the reboot mark stays; without one a round removes it and, if the workspace is admitted and its hardware unchanged, turns its VM back on |
| `WindowsOutcome.DetachFinishes` | internal/controller/vm_windows_guest.go:541-565 | with a VMI the detach mark stays; without one a round removes answer file and mark |
| `WindowsOutcome.StartTurnsOn` | internal/controller/workspace_controller.go:628-653 | the VM of a workspace that is to be on is on after a round if and only if it was, or the round writes it |
| `WindowsOutcome.HardwareArrives` | internal/controller/vm_windows_gpu.go:149-164 | changed hardware is written if and only if the VM is halted, has no VMI and passes the checks |
| `WindowsOutcome.ReadyExactly` | internal/controller/vm_windows_guest.go:488-539 | a round reports ready if and only if the workspace is on and set up, its VM is in order, and VMI, agent and pod are seen |
| `WindowsOutcome.RefetchExactly` | internal/controller/workspace_controller.go:632-650 | the second read of the VM, whatever happened before it: another or dying VM ends the round, one that has become right is not written, changed hardware is guarded |
| `WindowsOutcome.VmWriteExactly` | internal/controller/workspace_controller.go:650-651 | the VM is written if and only if it still has the version that was read; a newer one is read again |
| `WindowsOutcome.WorkspaceWritesExactly` | internal/controller/vm_windows_guest.go:533-580 | a mark is written if and only if the stored Workspace still has the round's version; otherwise the round ends |
| `WindowsOutcome.SecretReadExactly` | internal/controller/vm_windows_guest.go:376-409 | the Secret, whatever it is: missing credentials of a set-up guest are never replaced, others' or incomplete ones refused |
| `WindowsOutcome.CreatesLoseRaces` | internal/controller/vm_windows_guest.go:427 | a Secret or VM that is there first is left alone |
| `WindowsGuest.ReadyMeansProvisioned` | internal/controller/vm_windows_guest.go:488-565 | a workspace reported ready is provisioned for its current generation and not detaching, and its Secret has no answer file and holds the password first stored for that generation |
| `WindowsGuest.ReadyIsOnUnlessEdited` | internal/controller/vm_windows_guest.go:488-503 | and it is not stopped or rebooting, unless a user edited it since the round's read of it |
| `WindowsGuest.CopyIsStoredUnlessEdited` | internal/controller/vm_windows_guest.go:541-587 | throughout a round the stored Workspace is the round's copy, whatever status was written, unless a user edited it since the round's read |
| `WindowsProgress.StoppedWhileReporting` | internal/controller/workspace_controller.go:597-624 | a run from the beginning in which a workspace just stopped is reported ready |
| `WindowsGuest.PasswordNeverRotates` | internal/controller/vm_windows_guest.go:376-427 | at any two moments of a run, whatever was deleted and recreated in between, the controller's Secrets for one generation hold the same non-empty password |
| `WindowsGuest.GenerationMovesCleanly` | internal/controller/vm_windows_guest.go:447-467 | the generation changes only while no VM exists, to one never used, in the write that clears marks and reset; after the first one only for a reset |
| `WindowsPendingReset.ResetNeverTurnsOn` | internal/controller/workspace_controller.go:781-849 | once a reset is pending and no older round is under way, no call of the controller creates a VM or turns one on in any continuation along which the reset stays pending |
| `WindowsPendingReset.TurnsOnExactly` | internal/controller/workspace_controller.go:541-653 | in every reachable state with the reset pending, such a continuation exists if and only if an older round with its write or create of the VM ahead is under way |
| `WindowsPendingReset.OlderRoundTurnsOn` | internal/controller/workspace_controller.go:628-653 | a run from the beginning in which such a round turns a halted VM on |
| `WindowsReset.ResetRoundOnlyResets` | internal/controller/workspace_controller.go:781-849 | a round that saw a reset does nothing but reset steps until it ends |
| `WindowsReset.DeletionNeedsReset` | internal/controller/workspace_controller.go:781-821 | the controller starts deleting a VM only in the reset's delete step, with the reset still pending |
| `WindowsReset.DeleteOnlyWithoutVmi` | internal/controller/workspace_controller.go:801-821 | in every reachable state at the check for the VMI with none there: all continuations in which nobody turns the VM on delete only without a VMI, if and only if the VM is halted at the check |
| `WindowsReset.TurnedOnVmIsDeleted` | internal/controller/workspace_controller.go:807-821 | a run from the beginning in which a VM turned on after the check is deleted with its VMI |
| `WindowsReset.StrategyVmIsDeleted` | internal/controller/workspace_controller.go:794-821 | a run from the beginning in which a VM on a run strategy, untouched during the round, is deleted with its VMI |
| `WindowsReset.RankNeverRises` | internal/controller/workspace_controller.go:781-849 | apart from editors of the run field, the others never move a reset backwards, if and only if KubeVirt is not starting the VMI of a VM on a run strategy |
| `WindowsReset.ResetRoundWithVm` | internal/controller/workspace_controller.go:790-827 | one round stops a running VM, deletes one without VMI, and otherwise waits; Workspace and Secret stay |
| `WindowsReset.ResetRoundWithoutVm` | internal/controller/workspace_controller.go:833-848 | with the VM gone, one round consumes the reset (new generation, no marks, old Secret gone), or does nothing if the Secret is somebody else's |
| `WindowsReset.ResetIsConsumed` | internal/controller/workspace_controller.go:781-849 | from every idle state: a reset is consumed within rank plus one rounds (running, halted with VMI, halted, deleting, gone), with no VM left and a new generation, if and only if the VM is not on a run strategy with a VMI and the Secret is absent or owned |
| `WindowsReset.StrategyResetWaitsForever` | internal/controller/workspace_controller.go:792-806 | a run from the beginning after which a reset is never consumed, in any number of rounds |
| `WindowsGuest.GpuChangesOnlyWhenHalted` | internal/controller/vm_windows_gpu.go:149-164 | whenever a write of the controller changes a stored VM's hardware, at that instant the VM is halted and has no VMI |
| `WindowsProgress.StopExactly` | internal/controller/vm_windows_gpu.go:149-164 | one round of a workspace that is stopped, detaching or rebooting, with or without the GPU preflight, leaves its VM halted if and only if it was halted or the round writes it (valid profile, own VM, unchanged hardware, something to change) |
| `WindowsProgress.StopNeedsRunField` | internal/controller/workspace_controller.go:1889-1894 | with unchanged hardware and everything else in place, stopping works if and only if the run field is the controller's or says halted |
| `WindowsProgress.StrategyVmIsNotStopped` | internal/controller/workspace_controller.go:1889-1894 | a run from the beginning in which a stopped workspace's VM on runStrategy Always stays on |
| `WindowsProgress.RoundEnds` | internal/controller/workspace_controller.go:541-624 | every uninterrupted round ends within sixteen calls, whatever profile, preflights and guest say |
| `WindowsGuest.ReadySawGuest` | internal/controller/workspace_controller.go:607-622 | before every report of readiness there was a moment, with the same Workspace copy in hand, with the VMI there, its agent connected and the pod ready |
| `WindowsProgress.ProvisioningCompletes` | internal/controller/vm_windows_guest.go:498-565 | an undisturbed workspace goes from nothing to ready in the rounds create, mark, halt, detach, start |
| `WindowsRounds.ControlPlane.HandleReset` | internal/controller/workspace_controller.go:781-849 | a run of the machine under interference; when it consumes the reset there is no VM, the stored Workspace is the copy with a new generation, cleared marks and no reset, and the old Secret is no longer owned |
| `WindowsRounds.ControlPlane.ResetWindowsGeneration` | internal/controller/vm_windows_guest.go:447-467 | the Secret is deleted before the generation moves |
| `WindowsRounds.ControlPlane.FinishWindowsDetach` | internal/controller/vm_windows_guest.go:541-565 | the mark is removed only after the answer file; with a VMI present nothing changes |
| `WindowsRounds.ControlPlane.FinishWindowsReboot` | internal/controller/vm_windows_guest.go:567-580 | only the reboot mark is removed, in a conditional write |
| `WindowsRounds.ControlPlane.ReconcileWindowsBootstrap` | internal/controller/vm_windows_guest.go:359-427 | success leaves an owned Secret with the generation's first password, and with answer file and token if the guest is not provisioned |
| `WindowsRounds.ControlPlane.ReconcileVm` | internal/controller/workspace_controller.go:564-594 | success leaves a VM with the desired run state and bootstrap disc that carries at least the desired hardware |
| `WindowsRounds.ControlPlane.UpdateVirtualMachine` | internal/controller/workspace_controller.go:628-653 | the retry loop: success leaves the same VM incarnation, with the desired run state and bootstrap disc and at least the desired hardware |
| `WindowsRounds.ControlPlane.GuardWindowsGpuTransition` | internal/controller/vm_windows_gpu.go:149-164 | equal hardware always passes; changed hardware passes only for a halted VM, at a moment without VMI, with the preflight |
| `WindowsRounds.ControlPlane.WriteVm` | internal/controller/workspace_controller.go:650-651 | the write itself: the generated spec over the VM that was read, or a conflict that starts over |
| `WindowsRounds.ControlPlane.WindowsReady` | internal/controller/vm_windows_guest.go:488-539 | ready only with a VMI, a connected agent and a ready pod; a completed setup leads to marking, not to ready |
| `WindowsRounds.ControlPlane.MarkProvisioned` | internal/controller/vm_windows_guest.go:526-538 | both marks are set in one write of the Workspace |
| `WindowsRounds.ControlPlane.Reconcile` | internal/controller/workspace_controller.go:541-624 | a whole round under interference: ready means provisioned, not detaching, first password kept, no answer file |
| `ManagementIdentity.DigitsInjective` | internal/controller/vm_management_bootstrap.go:43-45 | decimal numerals of non-negative epochs are unambiguous |
| `ManagementAlone.DigitsAreDecimal` | internal/controller/vm_management_bootstrap.go:43-45 | epochs are written in decimal without leading zeros and read back as themselves |
| `ManagementIdentity.IdentityInjective` | internal/controller/vm_management_bootstrap.go:41-48 | the identity string determines Workspace UID, VM UID and epoch, for slash-free UIDs and non-negative epochs |
| `ManagementIdentity.IdentityNeedsSlashFree` | internal/controller/vm_management_bootstrap.go:41-48 | with slashes in UIDs two identities can collide |
| `ManagementIdentity.RunKeepsInv` | internal/controller/vm_execution_epoch.go:30-67 | the invariant over epochs, copies in flight and documents holds in every interleaving of rounds, status writers, editors, clean-up and time |
| `ManagementIdentity.EpochNeverDecreases` | internal/controller/vm_execution_epoch.go:47-60 | between any two moments of any run the epoch stored for a Workspace incarnation never falls or disappears |
| `ManagementIdentity.EpochWasRequested` | internal/controller/vm_execution_epoch.go:19-25 | a stored epoch is a non-negative value that was requested for this very Workspace |
| `ManagementIdentity.ConfirmedEpochHolds` | internal/controller/vm_execution_epoch.go:30-67 | once an epoch reconcile succeeded, the stored epoch is for ever at least the request it read |
| `ManagementIdentity.EpochSuccess` | internal/controller/vm_execution_epoch.go:51-66 | an accepted epoch write acted on what was read, covers the request, names the observed VM and leaves the caller's copy in step with the store |
| `ManagementAlone.EpochExactly` | internal/controller/vm_execution_epoch.go:30-67 | an undisturbed epoch reconcile succeeds if and only if the Workspace is there with the round's UID and a non-negative request, and its VM is the observed one, running, owned and not deleting, and, only for Windows, provisioned; it then stores the higher of request and previous epoch and nothing else, and otherwise writes nothing |
| `ManagementIdentity.DocumentNeverRewritten` | internal/controller/vm_management_bootstrap.go:130-157 | no step but its removal changes a document |
| `ManagementIdentity.AtMostOneDocument` | internal/controller/vm_management_bootstrap.go:130-157 | creations and removals balance for every identity; without clean-up at most one document is ever created |
| `ManagementIdentity.DocumentKeepsMatching` | internal/controller/vm_management_bootstrap.go:68-91 | at every later time a round that finds a document under its identity accepts it and writes nothing |
| `ManagementIdentity.NewDocumentIsCurrent` | internal/controller/vm_management_bootstrap.go:112-129 | a new document belongs to a Workspace that is not stopping or resetting, whose epoch is settled for this VM and covers the request, and names exactly those |
| `ManagementAlone.BootExactly` | internal/controller/vm_management_bootstrap.go:97-158 | from every reachable state an undisturbed bootstrap reconcile succeeds if and only if nothing is pending, the VM is good and the settled epoch is for it and covers the request; then the document named by UIDs and epoch exists, the old one or a new one for fifteen minutes; otherwise nothing is created |
| `ManagementAlone.DocumentCheckExactly` | internal/controller/vm_management_bootstrap.go:68-91 | a document that is found, whoever wrote it, is accepted if and only if it is for this Workspace, VM and epoch and its expiry is set and at most fifteen minutes away |
| `ManagementAlone.IdentityExactly` | internal/controller/vm_execution_epoch.go:12-17 | epoch and document together: the first succeeds if and only if the epoch can be settled, and then the second if and only if nothing is pending |
| `ManagementIdentity.WriterSawCurrentVm` | internal/controller/vm_management_bootstrap.go:59-66 | before a round writes an epoch or a document there was a moment, with the same Workspace copy in hand, at which the VM was the observed one, running, owned, not being deleted and, for Windows, provisioned |
| `ManagementRounds.ControlPlane.ReconcileExecutionEpoch` | internal/controller/vm_execution_epoch.go:30-67 | a run of the machine under interference; success means the caller's and the stored epoch are at least the request that was read |
| `ManagementRounds.ControlPlane.StoreEpoch` | internal/controller/vm_execution_epoch.go:51-60 | the conditional status write and the copy back into the caller |
| `ManagementRounds.ControlPlane.ReconcileManagementBootstrap` | internal/controller/vm_management_bootstrap.go:97-158 | success means a document exists under the identity of this Workspace, VM and epoch and names them |
| `ManagementRounds.ControlPlane.EnsureDocument` | internal/controller/vm_management_bootstrap.go:128-157 | an existing document is accepted only if it matches, else one is created once |
| `ManagementRounds.ControlPlane.CreateDocument` | internal/controller/vm_management_bootstrap.go:139-157 | the document the method writes names this Workspace, VM and epoch |
| `WindowsStatus.CarryTimes` | internal/controller/vm_windows_guest.go:606-613 | the inner loop hands over the times of the last stored condition of the same meaning |
| `WindowsStatus.WindowsStatusConditions` | internal/controller/vm_windows_guest.go:589-615 | the in-place loops compute the mirrored conditions with Ready last and times carried over |
| `WindowsStatus.ExactlyOneReady` | internal/controller/vm_windows_guest.go:589-604 | exactly one Ready condition, last and true if and only if there are ready replicas; the pod's others in their order |
| `WindowsStatus.StatusExactly` | internal/controller/workspace_controller.go:959-1009 | the whole written status field by field: which pod conditions, in which order, the Ready text, where every time comes from, replicas, container state and the kept execution |
| `WindowsStatus.QuietExactly` | internal/controller/vm_windows_guest.go:605-614 | the next round reproduces the stored conditions if and only if equal meanings carry equal times |
| `WindowsStatus.NoStatusLoop` | internal/controller/workspace_controller.go:959-1009 | with unique pod condition types and unchanged inputs the next round, at any later time, writes nothing |
| `WindowsStatus.TwiceReportedIsNotQuiet` | internal/controller/vm_windows_guest.go:605-614 | a pod that reports one condition twice with different times keeps the status changing |
| `LocalAdmin.OnlyPendingAccountsGetCredentials` | internal/controller/localauth.go:166-260 | in every interleaving, the controller changes an account only if it is the slug account and carries this AuthConfig's pending mark at that instant, and then only its login and mark; without an AuthConfig UID, only if this very round created it; an existing Secret is never overwritten |
| `LocalAdmin.WithoutUidItWasCreated` | internal/controller/localauth.go:200-235 | without an AuthConfig UID the account a round works on is one it created itself, under a UID of its own creation |
| `LocalAdmin.AttemptRecovers` | internal/controller/localauth.go:166-260 | an attempt cut off after any number of calls leaves a resumable state; one long enough leaves a usable administrator |
| `LocalLogin.CrashesAreRecovered` | internal/controller/localauth.go:166-260 | after any number of crashed attempts one complete attempt ends with somebody able to log in as administrator, and every hash as first stored |
| `LocalLogin.UsableLocalAdmin` | internal/controller/localauth.go:262-292 | the early returns accept an account if and only if a local login by it as administrator succeeds |
| `LocalLogin.UsableIsLogin` | internal/controller/localauth.go:262-292 | what the bootstrap takes for usable is exactly what can log in: not disabled, deleting or locked, local login on, administrator by role or list, Secret present, not deleting, its own, with a valid hash |
| `LocalLogin.BootstrapStartsExactly` | internal/controller/localauth.go:166-192 | the bootstrap starts if and only if local login is on, not skipped, and nobody can log in |
| `LocalLogin.RecoveryExactly` | internal/controller/localauth.go:166-260 | a complete attempt ends with somebody able to log in if and only if somebody was before, or the account is absent (and no legacy Secret is) or is this AuthConfig's own unfinished administrator, not locked, with its Secret absent or its own |
| `LocalLogin.FreshInstallLogsIn` | internal/controller/localauth.go:166-260 | where nobody else has local credentials it is the bootstrap account that can log in, with the hash first stored for its UID |
| `LocalAdmin.AttemptsLeaveOthers` | internal/controller/localauth.go:166-260 | no attempt touches another account |
| `LocalAdmin.ResumableIsGood` | internal/controller/localauth.go:197-207 | a missing account, or a pending one that is not locked, can be resumed |
| `LocalAdmin.NoUidNoResume` | internal/controller/localauth.go:203-205 | without an AuthConfig UID an existing account is never touched again |
| `LocalAdminRounds.ControlPlane.ReconcileBootstrapAdmin` | internal/controller/localauth.go:166-260 | a run of the machine under interference; success means local login is off, some administrator is usable, or the bootstrap account was just enabled with its own Secret |
| `LocalAdminRounds.ControlPlane.Bootstrap` | internal/controller/localauth.go:197-250 | create or resume, give a Secret, enable: success leaves the account enabled with its own Secret |
| `LocalAdminRounds.ControlPlane.CreateLocalAuthSecret` | internal/controller/localauth.go:113-161 | success leaves a Secret verifiably owned by the User's UID, created only where none was |
| `LocalAdminRounds.ControlPlane.EnableUser` | internal/controller/localauth.go:246-250 | the last write enables exactly the account version that was read or created |
| `Catalog.RunKeepsInv` | internal/controller/imagerepository_controller.go:237-276 | in every interleaving of syncs and editors, listed copies carried this repository's label and cannot reappear changed under their version |
| `Catalog.PruneOnlyOwnImages` | internal/controller/imagerepository_controller.go:257-276 | a sync deletes an Image only while pruning with no invalid file, outside its imported names, and only if the Image's current label names this repository |
| `Catalog.Registry.SyncImageFile` | internal/controller/imagerepository_controller.go:385-422 | create, or merge into the live object, or leave it when nothing changes |
| `Catalog.Registry.ImportFiles` | internal/controller/imagerepository_controller.go:238-255 | every importable file leaves an Image with this label and the spec of its last file; existing ones keep identity, finalizers and other metadata; nothing else moves |
| `Catalog.Registry.Prune` | internal/controller/imagerepository_controller.go:257-276 | exactly this repository's Images outside the imported names go, or are marked if they have finalizers |
| `Catalog.Deduplicate` | internal/controller/imagerepository_controller.go:278-286 | each name once, in order of first occurrence |
| `Catalog.Registry.SyncRepo` | internal/controller/imagerepository_controller.go:237-288 | the whole sync running alone; one invalid file means no pruning |
| `CatalogOutcome.ImportExactly` | internal/controller/imagerepository_controller.go:340-427 | one file: where every label and annotation of the Image comes from, what of the live object is kept, when nothing is written, and that a bad file changes nothing |
| `CatalogOutcome.FileAlone` | internal/controller/imagerepository_controller.go:241-255 | the interleaving machine, left alone, imports a file exactly so and goes on; a malformed or refused file makes the sync incomplete |
| `CatalogOutcome.LostRaceStartsOver` | internal/controller/imagerepository_controller.go:385-393 | a create or update that lost a race changes nothing and starts the file over |
| `CatalogOutcome.ItemExactly` | internal/controller/imagerepository_controller.go:263-276 | a listed Image goes, or is marked, if and only if no file was bad, it was not imported, and it is still the object and version that was listed |
| `CatalogOutcome.SyncExactly` | internal/controller/imagerepository_controller.go:237-288 | the whole sync alone: the finalizer-free Images with this label are exactly the imported ones and all others are unchanged; one malformed or refused file means no deletion at all |
| `UserGrants.Cluster.EnsureRoleBinding` | internal/controller/user_controller.go:296-347 | a binding with another role is replaced only if it is this User's own, else refused unchanged; afterwards it has the wanted role, subject and labels |
| `UserGrants.Cluster.EnsureShared` | internal/controller/user_controller.go:280-286 | the access list is applied in order and stops at the first refusal |
| `UserGrants.Cluster.CleanupStaleRoleBindings` | internal/controller/user_controller.go:378-410 | in any order, exactly the User's managed bindings outside the desired namespaces are removed |
| `UserGrants.Cluster.Reconcile` | internal/controller/user_controller.go:280-295 | the grants part of a reconcile as a function of the bindings and the User |
| `UserGrants.GrantsExactly` | internal/controller/user_controller.go:280-410 | every binding after a successful reconcile, key by key: the personal one if switched on, one per listed namespace with the role of its last entry, unwanted ones of this User gone, nothing else touched |
| `UserGrants.SuccessExactly` | internal/controller/user_controller.go:312-316 | a reconcile succeeds if and only if the User is disabled or no binding of somebody else with another role stands in the way of the personal binding or of the first entry for a namespace |
| `UserGrants.AccessAsSpecified` | internal/controller/user_controller.go:280-347 | in particular every listed namespace has the managed shared binding with the role of its last entry, and no binding managed for the User lies outside its personal and listed namespaces |
| `UserGrants.ForeignBindings` | internal/controller/user_controller.go:312-316 | somebody else's binding is untouched if and only if it is not under a name this reconcile writes |
| `UserGrants.HandMadeBindingIsAdopted` | internal/controller/user_controller.go:312-343 | a hand-made binding with the same role under that name is taken over |
| `UserGrants.OtherUsersKeepTheirs` | internal/controller/user_controller.go:296-304 | a reconcile of one User, enabled or disabled, leaves every binding another User's reconcile made exactly as it made it |
| `UserGrants.OtherUsersRefuseNothing` | internal/controller/user_controller.go:280-316 | a reconcile that would succeed still succeeds after another User's reconcile, enabled or disabled |
| `UserGrants.CleanupIsPerNamespace` | internal/controller/user_controller.go:399-406 | another managed binding survives if and only if its namespace is desired |
| `UserGrants.DisabledLeavesNone` | internal/controller/user_controller.go:118-121 | a disabled User keeps no managed binding and nothing else is touched |
| `UserGrants.DisableThenEnable` | internal/controller/user_controller.go:116-121 | from an empty start, disabling undoes enabling exactly and enabling again restores the same bindings |
| `UserGrants.UnusedIsAccepted` | internal/controller/user_controller.go:280-316 | without foreign bindings under its names the access list is never refused |
| `CloudConfig.MergeExisting` | internal/controller/workspace_controller.go:1854-1867 | first merge loop against the reference "drop a string that occurred before" |
| `CloudConfig.MergeKeys` | internal/controller/workspace_controller.go:1854-1873 | both merge loops give the reference result on the image's entries followed by the keys |
| `CloudConfig.DedupKeepsFirstOccurrences` | internal/controller/workspace_controller.go:1855-1873 | exactly the non-strings and the first occurrences of strings survive, in order |
| `CloudConfig.DedupIsDistinct` | internal/controller/workspace_controller.go:1855-1873 | no string twice |
| `CloudConfig.InjectTwice` | internal/controller/workspace_controller.go:1843-1884 | merging k1 then k2 equals merging k1 followed by k2; merging again changes nothing |
| `CloudConfig.AppendMounts` | internal/controller/vm_disks.go:133-165 | one command per mount is appended, unless a name or path is invalid or repeated |
| `CloudConfig.PipelineOutcome` | internal/controller/vm_disks.go:114-170 | the pipeline succeeds if and only if the agent stage has its binding, a cloud-config and a free place, and the mount stage a capable image, usable mounts and no user-data or a cloud-config |
| `CloudConfig.PipelineResult` | internal/controller/vm_disks.go:114-170 | the result for user-data of every kind, the empty one included: untouched if no stage had anything to do, otherwise a cloud-config with the image's entries in which each active stage wrote exactly its own |
| `CloudConfig.BareHeaderTakesMounts` | internal/controller/vm_disks.go:126-170 | a header without a document takes the mount commands as its only entry |
| `CloudConfig.PipelinePreserves` | internal/controller/vm_disks.go:114-170 | unmanaged entries are untouched; bootcmd and write_files are extended only at the end, and keys kept, if and only if the stage is idle or the image wrote a list |
| `CloudConfig.ScalarBootcmdIsReplaced` | internal/controller/vm_disks.go:133 | a scalar bootcmd is lost |
| `CloudInitDelivery.Namespace.ReconcileCloudInitSecret` | internal/controller/workspace_controller.go:701-745 | afterwards the Secret exists, with exactly the user-data, only above the inline limit; all other Secrets stay |
| `CloudInitDelivery.Namespace.ReconcileVm` | internal/controller/workspace_controller.go:564-594 | afterwards the comparison is quiet; a VM that was quiet is not written, and otherwise everything but its spec stays |
| `CloudInitDelivery.QuietVolumesSameSource` | internal/controller/workspace_controller.go:1904-1919 | volumes the comparison calls quiet have the same cloud-init source |
| `CloudInitDelivery.DesiredSeed` | internal/controller/workspace_controller.go:1429-1439 | the desired volumes, read with this round's Secret, give the user-data |
| `CloudInitDelivery.SeedIsDelivered` | internal/controller/workspace_controller.go:657-745 | after any history of rounds, crashes between the two writes and server changes, a completed round makes the guest read the computed user-data, for every size and in both directions across the limit |
| `CloudInitDelivery.SecretExactlyWhenReferred` | internal/controller/workspace_controller.go:1793-1804 | after any such history the VM refers to the Secret if and only if it exists, which is if and only if the user-data exceeds 2048 bytes; its content is the user-data, and other Secrets stay |
| `ShellQuote.ReadEscaped` | internal/controller/vm_disks.go:172-174 | inside single quotes an escaped value reads as itself and ends just after the closing quote |
| `ShellQuote.QuoteIsOneWord` | internal/controller/vm_disks.go:172-174 | the quoted form of any NUL-free string is one shell word equal to it |
| `ShellQuote.AssignmentIsOneWord` | internal/controller/vm_disks.go:148-149 | name=quoted value is one word, the name, the equals sign and the value |
| `ShellQuote.LineReadsBack` | internal/controller/vm_disks.go:145 | a line of plain and quoted words is read back word by word |
| `ContainerInit.Conflicts` | internal/controller/container_init.go:96-112 | the three loops find a collision with a reserved name or path if and only if there is one |
| `ContainerInit.PrepareContainerInit` | internal/controller/container_init.go:71-160 | disabled leaves the template; otherwise it is prepared if and only if configuration, image, command and names are acceptable and the data is available |
| `ContainerInit.AcceptedExactly` | internal/controller/container_init.go:37-112 | when a template is accepted, on configuration, account names, and the volume names, init containers and mount paths it uses |
| `ContainerInit.AddedParts` | internal/controller/container_init.go:117-158 | what is added: mounts with their volumes, the Secret behind the data volume, the hash, the installer and the termination settings |
| `ContainerInit.OptionsReadBack` | internal/controller/container_init.go:140-147 | a reader of flag/value pairs up to the separator recovers options and application arguments, even if those contain "--" |
| `ContainerInit.CommandLineIsRecovered` | internal/controller/container_init.go:132-148 | the runner recovers exactly command followed by arguments; baked-in mode leaves the command line alone |
| `ContainerInit.RestIsKept` | internal/controller/container_init.go:117-158 | everything else the user declared stays in place |
| `ContainerInit.WrapperNeverStacks` | internal/controller/container_init.go:68-112 | a prepared template is refused, so wrappers never pile up |

## Left out

- Git cloning, file reading, HTTP, guest exec and the guest's own behaviour: their results are inputs (parsed manifests, "setup complete", "agent connected").
- YAML, JSON and XML text, base64, bcrypt and SHA-256: trees and strings stand for texts, and a hash for what it is taken of; all texts that hold no document are one empty document.
- The generators of VMs, StatefulSets, Deployments and Services beyond run state, generation, volumes, GPU and the bootstrap disc; the comparison works on arbitrary trees instead.
- Node, storage, GPU and KubeVirt preflights and profile validation: one pass or fail each.
- E-mail addresses are compared exactly; the source folds case in the list of administrators.
- Retry limits and backoff: in the machines a retry may go on for ever or stop at any point; the methods use five attempts.
- Kubernetes garbage collection, informer-cache staleness and KubeVirt internals: environment steps or assumptions.
- Workspace deletion timestamps in the management protocol, and the shape checks of a bootstrap Secret (labels, immutability, size): documents are always of the controller's own shape.
- Personal namespaces and quotas, clean-up of a deleted User and concurrent writers of RoleBindings; RoleBindings with other role kinds or finalizers.
- The events, logs, metrics and requeue times of every reconcile.
- Aliasing inside the pod template: the wrapper works on values, so that the Workspace's own template stays untouched holds by construction, not by proof.
- CloudConfig.PipelineOutcome: promises no panic on an empty document only under the assumption about `yaml.Unmarshal` above.
- CloudInitDelivery.Namespace.ReconcileVm: only create-or-update of the whole object; identity checks and retry are in the Windows model.
- Catalog.Registry.SyncRepo: runs alone; interleavings are covered by the sync machine and `Catalog.PruneOnlyOwnImages`.
- UserGrants.Cluster.Reconcile: runs alone, so the preconditions of its deletes always hold and are not modelled.
- WindowsReset.ResetIsConsumed: between rounds KubeVirt and the garbage collector do their part and nobody edits the VM.
- WindowsProgress.StopExactly: one uninterrupted round; a round cut off by others is retried by the next one.
- Device entries and resource quantities in the Windows lifecycle are flat string maps; `WindowsGpu` relates the full trees.
- LocalLogin.CrashesAreRecovered: the attempts are not disturbed by other writers; safety under interference is `LocalAdmin.OnlyPendingAccountsGetCredentials`.
- WindowsStatus.NoStatusLoop: the container-init failure condition, which Windows workspaces do not have, is not part of the mirrored list.
