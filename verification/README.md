# DISTORT in Dafny

DISTORT exports slices of NVMe devices over NVMe-oF.  A CSI controller, a partition
scheduler, a claim controller, one agent per storage node and one node plugin per client
coordinate only through Kubernetes objects and through the storage target of each node.
This project models that coordination and the code it rests on, and proves what every
interleaving, every retry and every failure keeps.

| file | what it models |
|---|---|
| `Fencing.dfy`, `FencingProgress.dfy` | the single-writer protocol of one volume: CSI publishes and unpublishes, administrator takeover, agent reconciles, re-exports and partition deletion, one step per API or backend call |
| `Reservation.dfy`, `NameReuse.dfy`, `ReservationProgress.dfy` | the scheduler: concurrent reservations under per-serial locks, conflict retries, placement and its fingerprint; how tight its one condition is, and that reservations can succeed |
| `AgentGate.dfy`, `GateRecords.dfy` | the agents' gate for provisioning beside the scheduler: fingerprint check, recorded identities, writes by name |
| `DeviceOwnership.dfy` | binding and releasing devices against the reporter, with merge patches of stale reads |
| `Lifecycle.dfy` | provisioning and teardown against claim release, with a crash after any step and every status write by name |
| `PartedTable.dfy`, `PartedVolumes.dfy` | the first-fit partition allocator and its volume manager |
| `StoreBooks.dfy`, `CarvingRuns.dfy`, `LvolRuns.dfy` | the scheduler's account and the bytes of the volumes, together over whole runs, for both volume managers |
| `CapacityBooks.dfy`, `Fragmentation.dfy` | the advertised capacity and the geometry of the disk |
| `KernelTarget.dfy`, `SpdkTarget.dfy` | the two target backends: export repair and host switch |
| `SpdkLvol.dfy` | SPDK logical volumes: create, identify, delete |
| `NodeStage.dfy` | staging on a node and its rollback |
| `PlacementAuth.dfy`, `VolumeHandle.dfy`, `Capacity.dfy` | the fingerprint encoding, the handle codec and the capacity arithmetic |
| `Runs.dfy`, `HostAccess.dfy`, `Text.dfy`, `Bytes.dfy`, `Options.dfy` | small shared definitions |

`dafny verify dfyconfig.toml` checks everything.

## How to read the models

Protocols are state machines: a `Next` relation with one predicate per kind of step, runs of
it, an invariant, one preservation lemma per group of steps, and theorems about all runs.
Code that changes a disk, a configfs tree, an RPC server or a node is a class whose methods
follow the source statement by statement; each command may fail, and where the source cannot
tell, a failed command may have taken effect.  Where the outcome depends on which command fails,
that is part of the environment (`faults`, `Env`, a `reliable` flag), so that contracts can say
exactly when an operation succeeds and what a failing one leaves.  `history` fields record
what was ever visible.

Assumptions: API reads are current; single-object API operations are atomic; UIDs and
attachment identifiers are not reused; SHA-256 is injective; each storage node has one agent
worker and the claim controller has one worker; the scheduler is the only writer of placements
and device totals do not shrink; only the owner of a finalizer removes it.  In the runs of the
books an object leaves the API only when its volume is gone, which its finalizer is for.

## What the proofs turned up

Some properties one would expect do not hold of the code as written.  Each has a concrete
input or run, and the exact condition under which the property holds.

- The scheduler compares free capacity with the size of the object it read first.  A partition
  deleted and recreated larger under the same name while it is being reserved oversubscribes the
  device (`Reservation.NameReuseOversubscribes`).  Nothing else does (`Reservation.NeverOversubscribed`),
  and wherever the condition fails and the larger partition does not fit, oversubscription can
  follow (`NameReuse.LargerNamesakeOversubscribes`, `NameReuse.ReuseSafeIsTight`).
- The agent writes the external identifier and the cleanup finalizer by name.  A carve leaves
  no orphan exactly when the finalizer went to the object that was read
  (`Lifecycle.FinalizerPatchIsSafeIff`).  A volume carved for a namesake under its predecessor's
  identifier stays for ever, or is adopted and torn down with the namesake, depending on
  exactly where the agent stops (`Lifecycle.FateOfMistakenVolume`,
  `Lifecycle.NameReuseOrphansVolume`, `Lifecycle.NameReuseAdoptsVolume`).  Its export can stay for
  ever even where the volume is torn down (`Lifecycle.NameReuseOrphansExport`).
- The agent's gate also accepts an object that merely carries a recorded identity, and records
  identities by name, so an object that was never stamped can pass, even one that had no placement
  yet when it got the record (`AgentGate.UnstampedObjectPasses`; exact condition over everything
  that can follow `GateRecords.RecordKeepsGateIff`).
- A device that is reported back between the claim controller's read and its release ends up
  Claimed with no owner, and no other claim can bind it while it is present
  (`DeviceOwnership.StrandedRun`, `DeviceOwnership.StrandedStaysUnclaimable`; exact condition
  `DeviceOwnership.CoherentRunIff`).
- A device that is bound between its creation and its initialization ends up Available with an
  owner, even when every patch follows its read directly (`DeviceOwnership.EarlyBindingRun`; exact
  condition `DeviceOwnership.AtomicCoherentIff`).
- A controller that stops in the middle of moving a claim to another device leaves an active
  claim whose matched device is not its own (`DeviceOwnership.InterruptedMoveLosesMatch`; exact
  condition `DeviceOwnership.StepKeepsMatchedIff`).  With a late release on top the branch for
  records without an owner reference decides a binding (`DeviceOwnership.LegacyMatchCanDecide`); in
  timely runs it never does (`DeviceOwnership.LegacyMatchNeverDecides`).
- A failed create can leave a volume of a size nobody asked for, which no account explains
  (`CarvingRuns.MisplacedRowBreaksAccount`, `LvolRuns.OddVolumeBreaksAccount`; exact conditions
  `CarvingRuns.AccountedRunIff`, `LvolRuns.AccountedRunIff`).
- Deletions fragment a disk, so a partition that the scheduler assigned within the advertised
  capacity can have no place to go (`Fragmentation.DeletionsCanDefeatReservation`); every reservation
  has one while volumes are only created (`CarvingRuns.ReservationCanBeCarved`).
- Rewriting the shared port of the kernel target loses links exactly when a removal fails after
  another one succeeded or a restoration fails (`KernelTarget.KernelPort.Ensure`,
  `KernelTarget.RewriteCanLoseLink`); a failing attribute write costs none
  (`KernelTarget.FailedWriteLosesNothing`).
- Even with working cleanup commands a failed staging call leaves something behind, exactly when a
  connect or mount that failed took effect all the same, or a mount could not be verified and the
  call was cancelled before its unmount
  (`NodeStage.Node.NodeStageVolume`, `NodeStage.LeakedConnection`, `NodeStage.LeakedMount`).
- Parsing accepts handles that were never issued (`VolumeHandle.LooseHandleParses`); a parsed
  handle is the issued one exactly when its fields are canonical (`VolumeHandle.IssuedIffCanonical`).
- Rounding up the largest allocatable capacity overflows int64 in the intermediate sum and wraps
  back (`Capacity.OnlyLargestCapacityWraps`).

## Model

| member | source | states |
|---|---|---|
| Fencing.SingleWriter | internal/agent/partition_manager.go:126-184 | in every reachable state the target authorizes at most one host, the derived identity of the one existing attachment, which still holds the fencing finalizer |
| Fencing.StepPreservesInv | internal/agent/partition_manager.go:103-184 | every step of every participant keeps the fencing invariant: target hosts are entitled by the record, and the agent's position agrees with record and target |
| Fencing.DeletePreservesInv | internal/csi/controller_attachment.go:109-138 | deleting by name without a UID precondition never breaks the invariant |
| Fencing.HostsChangeOnlyWhileDisconnected | internal/agent/plugins/backend_kernel.go:375-430 | in every run a kernel target changes its host set only while its port link is down |
| Fencing.PublishSeesOwnLifetime | internal/csi/controller_attachment.go:171-218 | a publish succeeds only on the record it waits for, not being deleted, with nobody else authorized, after a step that authorized exactly its node for exactly that attachment lifetime |
| Fencing.FencedBetweenPublishes | internal/csi/controller_attachment.go:37-106 | between two successful publishes to different nodes there is a state without a record in which the target authorized nobody |
| Fencing.UnpublishRevokes | internal/csi/controller_attachment.go:109-138 | when an unpublish reports success, because the partition is gone, its record is gone or names another node, the named node is not authorized; with no node given, nobody is |
| Fencing.ReadyWasGranted | internal/agent/partition_manager.go:103-124 | a ready record was preceded by a state in which the target authorized exactly its host |
| FencingProgress.SwitchHosts | internal/agent/plugins/backend_kernel.go:375-430 | from any host set an undisturbed switch reaches exactly the wanted set |
| FencingProgress.ReconcileGrants | internal/agent/partition_manager.go:126-163 | from every reachable idle state with a valid record an undisturbed reconcile authorizes its host and reports it ready |
| FencingProgress.ReconcileReleases | internal/agent/partition_manager.go:126-163 | from every reachable idle state with a record being deleted an undisturbed reconcile revokes its host and lets the record go |
| FencingProgress.PublishCanSucceed | internal/csi/controller_attachment.go:37-106 | from every reachable serving state without a record a new publish can succeed |
| FencingProgress.TakeoverCanSucceed | internal/csi/controller_attachment.go:83-106 | from every reachable serving state attached elsewhere the takeover annotation lets a publish move the volume |
| Reservation.AllocatedCapacityForDevice | internal/controller/nvmedevice_controller.go:37-55 | the exact sum of rounded sizes assigned to the serial number, and an error exactly when one cannot be rounded or the sum exceeds int64 |
| Reservation.NeverOversubscribed | internal/controller/nvmepartition_controller.go:183-284 | under every interleaving in which a name under reservation is not reused for a larger partition, the sum assigned to a device never exceeds its total |
| Reservation.AssignKeepsSound | internal/controller/nvmepartition_controller.go:234-282 | the spec update of an admitted worker keeps the books within capacity although list and update are separate steps |
| NameReuse.LargerNamesakeOversubscribes | internal/controller/nvmepartition_controller.go:183-284 | from every reachable state in which a worker, at whatever step and whoever holds its lock, reserves less than the live, unplaced object of that name needs, and that object does not fit, the device can come to be oversubscribed; the sum assigned so far is an int64 |
| NameReuse.ReuseSafeIsTight | internal/controller/nvmepartition_controller.go:302-346 | a creation that the condition on reused names excludes opens the way to oversubscription as soon as the new partition does not fit, whatever the worker is doing; the sum assigned so far is an int64 |
| Reservation.NameReuseOversubscribes | internal/controller/nvmepartition_controller.go:302-346 | a run in which a reused name oversubscribes the device |
| ReservationProgress.ReservationCanSucceed | internal/controller/nvmepartition_controller.go:183-284 | from every state in which a live partition fits an eligible device whose lock is free, a worker left alone places it there, changes nothing else, and stamps it so that the fingerprint check passes |
| Reservation.PlacementNeverChanges | internal/controller/nvmepartition_controller.go:194-202 | however attempts race, a partition that has a placement keeps it for life |
| Reservation.FingerprintOrigin | internal/controller/nvmepartition_controller.go:250-270 | every fingerprint on any object was stamped by a worker past its capacity check |
| Reservation.AuthorizedWasStamped | internal/placementauth/placement.go:66-79 | a partition whose fingerprint check passes was stamped by the manager for exactly its UID, node, serial number and claim |
| AgentGate.PassedIsVouched | internal/agent/partition_manager.go:222-270 | in every run, whatever passes the agent's whole gate was stamped for exactly its UID and placement, or carried an identity from an older release, or got one meant for another object |
| AgentGate.PassedIsStamped | internal/agent/partition_manager.go:222-270 | without older releases and reused names everything the agents provision was stamped for exactly its UID, node, serial number and claim |
| GateRecords.RecordKeepsGateIff | internal/agent/partition_manager.go:523-546 | in every reachable state in which no record went astray yet, a record keeps the gate honest in every continuation with faithful records exactly when it lands on the object that was read, on one of an older release, on one placed as stamped, or on an unplaced one that no worker between its read and its stamp is about to stamp with a copy of another object |
| AgentGate.UnstampedObjectPasses | internal/agent/partition_manager.go:222-226 | a run in which an object passes that was never stamped for itself; it had no placement when it got the record |
| DeviceOwnership.StepPreservesInv | internal/controller/nvmedeviceclaim_controller.go:132-259 | every read and patch of users, reporters and controller keeps the ownership invariant |
| DeviceOwnership.NoDanglingOwner | internal/controller/nvmedeviceclaim_controller.go:146-189 | in every interleaving the owner of a device is a claim that exists and holds its finalizer |
| DeviceOwnership.StepMovesOwner | internal/controller/nvmedeviceclaim_controller.go:132-144 | an owner appears only through that claim's binding and disappears only through that claim's release |
| DeviceOwnership.ReleasedBetweenOwners | internal/controller/nvmedeviceclaim_controller.go:228-259 | between two different owners there is a state in which the device had none |
| DeviceOwnership.MovingKeepsMatchIff | internal/controller/nvmedeviceclaim_controller.go:246-256 | in the middle of a move an active claim keeps its matched device exactly when that is the chosen one or still to be released |
| DeviceOwnership.StepKeepsMatchedIff | internal/controller/nvmedeviceclaim_controller.go:240-259 | a step makes an active claim lose its matched device exactly when it stops the controller at a position past that device's release |
| DeviceOwnership.InterruptedMoveLosesMatch | internal/controller/nvmedeviceclaim_controller.go:228-256 | a run from the empty state that ends at a listing with an active claim whose matched device has no owner |
| DeviceOwnership.LegacyMatchNeverFires | internal/controller/nvmedeviceclaim_controller.go:228-232 | in runs without such a stop the legacy-match condition never holds at a listing |
| DeviceOwnership.LegacyMatchNeverDecides | internal/controller/nvmedeviceclaim_controller.go:228-238 | in runs with timely patches the legacy-match branch never decides a binding, wherever the controller stops |
| DeviceOwnership.LegacyMatchCanDecide | internal/controller/nvmedeviceclaim_controller.go:228-238 | a run from the empty state that ends at a listing in which a claim may bind a device only because of that branch |
| DeviceOwnership.ReportCoherentIff | internal/agent/reporter.go:278-331 | a report keeps state and owner in agreement exactly when it is timely |
| DeviceOwnership.BindStaysCoherent | internal/controller/nvmedeviceclaim_controller.go:240-245 | the binding patch always keeps state and owner in agreement |
| DeviceOwnership.ReleaseCoherentIff | internal/controller/nvmedeviceclaim_controller.go:132-144 | a release keeps them in agreement exactly unless it read Unavailable and the device is Claimed by now |
| DeviceOwnership.CoherentRunIff | internal/agent/reporter.go:225-365 | over a whole run, Available implies no owner and Claimed implies an owner in every state exactly when every patch is timely |
| DeviceOwnership.AtomicCoherentIff | internal/agent/reporter.go:278-362 | with reads and patches taken together, both implications hold in every state of a run exactly when no device is bound before it is initialized |
| DeviceOwnership.EarlyBindingRun | internal/agent/reporter.go:271-289 | a run in which each patch follows its read and a device ends up Available with an owner |
| DeviceOwnership.LateReleaseStrands | internal/controller/nvmedeviceclaim_controller.go:132-144 | for every device, a release that read it as gone and lands after its return leaves it Claimed by nobody |
| DeviceOwnership.StrandedStaysUnclaimable | internal/controller/nvmedeviceclaim_controller.go:228-238 | no claim may bind such a device unless its own status still points at it, and a refresh keeps it so |
| DeviceOwnership.StrandedRun | internal/controller/nvmedeviceclaim_controller.go:146-189 | a run from the empty state that reaches such a device |
| Lifecycle.NothingLeaks | internal/agent/partition_manager.go:628-725 | after whatever crashes, every carved volume and every export has its partition object with the cleanup finalizer, under a claim that still owns the device |
| Lifecycle.GoneMeansCleaned | internal/agent/partition_manager.go:471-521 | a partition object that is gone left neither volume nor export, whether or not its identity was recorded |
| Lifecycle.ReleasedMeansEmpty | internal/controller/nvmedeviceclaim_controller.go:146-189 | a device its partition's claim no longer owns carries no volume or export |
| Lifecycle.WorkIsAuthorized | internal/agent/partition_manager.go:660-707 | in every trace, whichever object the patches landed on, the claim of the partition in the agent's hands exists and owns the device from the carve to the record of the export |
| Lifecycle.StepPreservesInv | internal/agent/partition_manager.go:222-270 | every faithful step keeps what the authorization check established until the work ends |
| Lifecycle.FinalizerPatchIsSafeIff | internal/agent/partition_manager.go:523-546 | patching the finalizer, checking again and carving leaves no orphan exactly when the object that has the name is the one that was read |
| Lifecycle.IdentityPatchIsSafeIff | internal/agent/partition_manager.go:530-540 | patching the identity keeps every record leading to its own object exactly when the object that has the name is the one that was read |
| Lifecycle.StaysForeverIff | internal/agent/partition_manager.go:51-71 | once the agent has stopped, a carved volume stays in every continuation exactly when the object that has the name does not lead to it by its identifier, its NQN or, for logical volumes, its backend record |
| Lifecycle.AdoptedExactlyWhen | internal/agent/partition_manager.go:691-717 | a namesake comes to lead to a volume carved under its predecessor's identifier exactly when the NQN is recorded, or for logical volumes already when the backend identity is |
| Lifecycle.FateOfMistakenVolume | internal/agent/partition_manager.go:676-717 | so the volume stays for ever exactly when the agent stops before that, and the export exactly when it stops before the NQN is recorded |
| Lifecycle.ServedForeverIff | internal/agent/partition_manager.go:51-71 | once the agent has stopped, an export stays in every continuation exactly when the object that has the name does not lead to it by its identifier or its NQN |
| Lifecycle.CanBeTornDown | internal/agent/partition_manager.go:471-521 | a volume that a removable object leads to can still be deleted |
| Lifecycle.OrphansStayForever | internal/agent/partition_manager.go:471-521 | no later step of any run, status writes by name and adoption included, deletes a volume that neither an object nor the agent leads to |
| Lifecycle.NameReuseOrphansVolume | internal/agent/partition_manager.go:523-546 | a run, for either manager, in which a reused name and a stop after the carve leave a volume that stays for ever |
| Lifecycle.NameReuseOrphansExport | internal/agent/partition_manager.go:703-708 | a run, for either manager, that leaves an export that stays for ever; the volume behind it stays only with parted |
| Lifecycle.NameReuseAdoptsVolume | internal/agent/partition_manager.go:598-626 | the same run going on: the namesake adopts the volume and its teardown removes it |
| PartedTable.GapsAreFree | internal/agent/plugins/vol_partition.go:133-143 | a reported free extent overlaps no partition |
| PartedTable.GapsAreAll | internal/agent/plugins/vol_partition.go:133-143 | every free stretch lies in one reported extent |
| PartedTable.SelectFreeExtent | internal/agent/plugins/vol_partition.go:149-160 | the loop computes first fit over the extents |
| PartedTable.FirstFitIsFree | internal/agent/plugins/vol_partition.go:149-160 | the chosen extent is 1 MiB aligned, of the right length, in range and unoccupied |
| PartedTable.FirstFitFailsOnlyWhenFull | internal/agent/plugins/vol_partition.go:149-160 | first fit fails only when no aligned position in the usable range is free |
| PartedTable.LowestAvailable | internal/agent/plugins/vol_partition.go:162-172 | the smallest unused positive number, found within one past the table size |
| PartedTable.LowestFreeIsUnique | internal/agent/plugins/vol_partition.go:162-172 | that number is determined by the table |
| PartedTable.InsertWellFormed | internal/agent/plugins/vol_partition.go:283-300 | inserting a partition into free space under an unused number keeps the table disjoint, in range and uniquely numbered |
| PartedVolumes.PathRoundTrip | internal/agent/plugins/vol_partition.go:191-205 | the partition number is recovered from its path |
| PartedVolumes.PartitionsNamed | internal/agent/plugins/vol_partition.go:174-182 | exactly the partitions of that name, and at most one match means the name is unambiguous |
| PartedVolumes.PartedVolumeManager.SetupStorage | internal/agent/plugins/vol_partition.go:221-244 | a disk that has a label keeps its table; success means labelled, and a reliable disk always succeeds |
| PartedVolumes.PartedVolumeManager.CreateVolume | internal/agent/plugins/vol_partition.go:246-326 | meets `Creates`: others kept, at most one new partition and only under a new name, and a success reports the one partition of that name, of exactly the rounded size, new ones at the first fit under the lowest free number; on a reliable disk it succeeds exactly when the one partition of that name has the right size, or none has the name and something fits |
| PartedVolumes.PartedVolumeManager.DeleteVolume | internal/agent/plugins/vol_partition.go:328-370 | meets `Deletes`: removes at most one partition of that name under the recorded number, refuses a number owned by another volume, and success means it is gone; on a reliable disk it succeeds exactly when the recorded number is usable and not another volume's, or without one the name is unambiguous |
| PartedVolumes.RunStaysWellFormed | internal/agent/plugins/vol_partition.go:246-370 | over every sequence of creates, retries and deletes partitions stay disjoint, in range and unique in number |
| PartedVolumes.RunKeepsNamesUnique | internal/agent/plugins/vol_partition.go:246-370 | names stay unique over every sequence |
| PartedVolumes.RunStaysAligned | internal/agent/plugins/vol_partition.go:246-326 | with a parted that places partitions where it is told, all stay 1 MiB aligned, failed calls included |
| PartedVolumes.SurvivesOtherVolumes | internal/agent/plugins/vol_partition.go:246-370 | a partition keeps its number and bounds until a deletion of its own name |
| PartedVolumes.RetryReturnsSameIdentity | internal/agent/plugins/vol_partition.go:246-326 | a retried create returns the identical identity and changes nothing |
| PartedVolumes.CreatedIsAligned | internal/agent/plugins/vol_partition.go:283-326 | a new volume starts on a whole MiB, is a whole number of 4 MiB units and overlaps nothing |
| PartedVolumes.DeleteUndoesCreate | internal/agent/plugins/vol_partition.go:328-370 | deleting with the identity its creation returned leaves no partition of that name, however often the creation was retried in between |
| CapacityBooks.PackedFirstFit | internal/agent/plugins/vol_partition.go:149-160 | on a table packed from the first MiB, first fit gives exactly the next position, or nothing when it does not fit |
| Fragmentation.DeletionsCanDefeatReservation | internal/agent/plugins/vol_partition.go:149-160 | a run of the scheduler and a 128 MiB GPT disk with deletions, without reused names and with an obedient parted, after which a partition assigned within the advertised capacity and not carved yet has no fit |
| CarvingRuns.AccountedRunIff | internal/agent/plugins/vol_partition.go:246-326 | over a whole run of scheduler steps, creates and deletes every row on the disk belongs to an assigned partition of its rounded size exactly when every row added, failed calls included, has the length asked for |
| CarvingRuns.SuccessHasRightLength | internal/agent/plugins/vol_partition.go:294-316 | a create that reports success has such a row |
| CarvingRuns.RunRefines | internal/agent/plugins/vol_partition.go:246-370 | every run of the scheduler and the disk is a run of the books machine |
| CarvingRuns.BooksBalance | internal/controller/nvmedevice_controller.go:37-55 | in every state of such a run the bytes carved equal the scheduler's account of the carved partitions, whatever names were reused |
| CarvingRuns.BooksFit | internal/controller/nvmedevice_controller.go:37-55 | with no name under reservation reused for a larger partition they never exceed the device total, and leave room for each assigned partition not carved yet |
| CarvingRuns.MisplacedRowBreaksAccount | internal/agent/plugins/vol_partition.go:289-308 | for every starting state with a placed partition, a run in which a failed create leaves a row that no account explains |
| CarvingRuns.CreationOnlyStaysPacked | internal/agent/plugins/vol_partition.go:283-292 | while volumes are only created, and where they should be, the table stays packed, failed calls included |
| CarvingRuns.ReservationCanBeCarved | internal/agent/nvme_discovery.go:317-332 | in every state of every creation-only run on a GPT disk of at least 128 MiB first fit finds room for every reservation the scheduler made and nobody carved yet; parted obeys and no name under reservation is reused for a larger partition |
| LvolRuns.RunRefines | internal/agent/plugins/vol_spdk_lvol.go:149-353 | every run of the scheduler and a store of logical volumes, other stores changing meanwhile, is a run of the books machine |
| LvolRuns.AccountedRunIff | internal/agent/plugins/vol_spdk_lvol.go:185-205 | over a whole run every volume of the store belongs to an assigned partition of its rounded size exactly when every volume added, failed calls included, has the size asked for |
| LvolRuns.SuccessHasRightSize | internal/agent/plugins/vol_spdk_lvol.go:191-210 | a create that reports success has such a volume |
| LvolRuns.BooksBalance | internal/controller/nvmedevice_controller.go:37-55 | in every state of such a run the bytes of the store's volumes equal the scheduler's account of their partitions |
| LvolRuns.BooksFit | internal/controller/nvmedevice_controller.go:37-55 | with no name under reservation reused for a larger partition they never exceed the device total, and leave room for each assigned partition without a volume |
| LvolRuns.OddVolumeBreaksAccount | internal/agent/plugins/vol_spdk_lvol.go:199-205 | for every starting state with a placed partition, a run in which a failed create leaves a volume that no account explains |
| StoreBooks.AccountedRunIff | internal/controller/nvmedevice_controller.go:37-55 | the same over volumes of any kind, added, dropped and accounted for beside the scheduler |
| KernelTarget.KernelPort.Ensure | internal/agent/plugins/backend_kernel.go:140-196 | success means the wanted attributes and exactly the former links; links are lost exactly when a removal fails after another one succeeded or a restoration fails; no exit adds or retargets a link, not even in between; with working reads a configured port is left alone |
| KernelTarget.FailedWriteLosesNothing | internal/agent/plugins/backend_kernel.go:185-194 | failing attribute writes alone cost no link |
| KernelTarget.OneFaultCanLoseLinks | internal/agent/plugins/backend_kernel.go:180-189 | one failing removal behind another, or one failing restoration, loses links |
| KernelTarget.RewriteCanLoseLink | internal/agent/plugins/backend_kernel.go:140-196 | an execution that fails and loses one of two links |
| KernelTarget.KernelPort.Restore | internal/agent/plugins/backend_kernel.go:131-138 | success means exactly the saved links are back |
| KernelTarget.KernelBackend.EnsureSubsystemLink | internal/agent/plugins/backend_kernel.go:92-124 | success means the link resolves to the subsystem, a link that cannot be read being made anew; other links are untouched; with working reads a matching link is left alone |
| KernelTarget.KernelBackend.EnsureNamespace | internal/agent/plugins/backend_kernel.go:198-248 | success means exactly namespace 1 on the block device, values that cannot be read counting as wrong; at no time was a half-repaired subsystem on the port |
| KernelTarget.HealthyIff | internal/agent/plugins/backend_kernel.go:286-322 | the required values, the one namespace and the link that a check reads are together exactly a healthy export |
| KernelTarget.KernelBackend.CheckExport | internal/agent/plugins/backend_kernel.go:274-323 | the loop over the values, the namespace listing and the link accept only exports that are healthy as defined by state, and with working reads all of them |
| KernelTarget.KernelBackend.ExportVolume | internal/agent/plugins/backend_kernel.go:325-373 | from any tree without stray directories and with working calls it succeeds; success means healthy with all other subsystems, links and hosts kept; with working reads a healthy export is left exactly as it was |
| KernelTarget.KernelBackend.ReconcileHostAccess | internal/agent/plugins/backend_kernel.go:375-430 | from any host set and with a failure after any call, the subsystem was on the port only untouched or with exactly the wanted access, and no new host ever stood beside a stale one; success means exactly the wanted access, linked |
| KernelTarget.KernelBackend.UnexportVolume | internal/agent/plugins/backend_kernel.go:432-469 | success means the subsystem and its link are gone; everything else is kept |
| SpdkTarget.AssembledIsHealthy | internal/agent/plugins/backend_spdk.go:514-536 | a subsystem assembled by the three creation calls passes the inspection |
| SpdkTarget.CollectIdentities | internal/agent/plugins/backend_spdk.go:390-412 | the loop collects exactly the non-empty names, UUIDs and aliases of the backing bdevs and the block path |
| SpdkTarget.SpdkBackend.InspectExport | internal/agent/plugins/backend_spdk.go:441-484 | the loops over namespaces and listeners report healthy, missing and mismatch only when an export that serves the block device at the portal is, or is not, there |
| SpdkTarget.SpdkBackend.ExportVolume | internal/agent/plugins/backend_spdk.go:497-539 | healthy and unobservable exports are left alone; any replacement authorizes nobody; success means healthy, and with reliable calls it succeeds exactly when the backing bdev exists |
| SpdkTarget.SpdkBackend.ReconcileHostAccess | internal/agent/plugins/backend_spdk.go:541-596 | with lost responses after any call, only former hosts are authorized until all are gone and then only the wanted one; success means exactly the wanted access, and reliable calls succeed on every existing subsystem |
| SpdkTarget.SpdkBackend.UnexportVolume | internal/agent/plugins/backend_spdk.go:598-633 | success, even after a lost response, means the subsystem is gone; others are kept |
| SpdkLvol.MatchingBdevs | internal/agent/plugins/vol_spdk_lvol.go:101-109 | no match and a single match are recognized exactly |
| SpdkLvol.ResolveLvolForDeletion | internal/agent/plugins/vol_spdk_lvol.go:218-282 | a candidate exactly when every recorded selector resolves to that single bdev, absence exactly when none resolves, a refusal otherwise |
| SpdkLvol.ResolutionIsExclusive | internal/agent/plugins/vol_spdk_lvol.go:258-282 | the candidate is unique and excludes absence |
| SpdkLvol.ValidateLvolOwnership | internal/agent/plugins/vol_spdk_lvol.go:284-315 | with distinct store UUIDs, accepted exactly when no store was recorded or the recorded identifiers single out one store that agrees with everything |
| SpdkLvol.OneDeletionSuffices | internal/agent/plugins/vol_spdk_lvol.go:337-353 | removing the agreed bdev leaves no selector resolving |
| SpdkLvol.SpdkLvolManager.DeleteVolume | internal/agent/plugins/vol_spdk_lvol.go:317-353 | at most the one agreed and owned bdev is removed; success, even after a lost response, means no selector resolves; with reliable calls it succeeds exactly when nothing resolves or everything agrees on one volume of the recorded store |
| SpdkLvol.BdevCapacity | internal/agent/plugins/vol_spdk_lvol.go:128-136 | the exact product, and an error exactly when it is zero or exceeds int64 |
| SpdkLvol.LvstoreForBaseBdev | internal/agent/plugins/vol_spdk_lvol.go:62-73 | a store exactly when one and only one is on the device |
| SpdkLvol.FindCreatedLvol | internal/agent/plugins/vol_spdk_lvol.go:138-147 | a bdev exactly when one and only one has the alias or the UUID |
| SpdkLvol.IdentityPins | internal/agent/plugins/vol_spdk_lvol.go:111-126 | every identifier of a reported identity leads back to that volume and to no other |
| SpdkLvol.SpdkLvolManager.CreateVolume | internal/agent/plugins/vol_spdk_lvol.go:149-211 | success means one volume of exactly the rounded capacity that the returned identity pins for deletion; at most one bdev appears, under an unused alias; with reliable calls it succeeds exactly when the one store on the device has the volume at that capacity or can make it |
| SpdkLvol.CreatedIsDeletable | internal/agent/plugins/vol_spdk_lvol.go:317-353 | with distinct stores and a volume that names its own store or none, the identity a create reports passes resolution and ownership for deletion |
| NodeStage.Node.Connect | internal/csi/nvme.go:51-91 | an earlier connection is neither claimed nor dropped while controllers can be listed |
| NodeStage.Node.EnsureFilesystem | internal/csi/node_server.go:470-485 | a device with content keeps it; success means the requested filesystem |
| NodeStage.Node.MountStage | internal/csi/node_server.go:427-462 | success means the expected visible mount; earlier mounts stay |
| NodeStage.Node.Unmount | internal/csi/node_server.go:576-602 | ends on the number of stacked mounts; success means none is left |
| NodeStage.Node.RollBack | internal/csi/node_server.go:272-287 | undoes what the call created and nothing else |
| NodeStage.Node.NodeStageVolume | internal/csi/node_server.go:239-312 | content, earlier mounts and an observable earlier connection survive every exit; while controllers can be listed, what the commands do decides exactly whether the call succeeds; with working cleanup it also decides whether a failing one leaves a connection or a mount behind, and otherwise everything is restored |
| NodeStage.OnlyStickyCommandsLeak | internal/csi/node_server.go:272-287 | when no failed connect or mount takes effect and the context stays live, no failing call leaves anything behind, on any node |
| NodeStage.StickyConnectCanLeak | internal/csi/nvme.go:68-90 | on every unconnected node a connect that fails and yet connects can leak |
| NodeStage.StickyMountCanLeak | internal/csi/node_server.go:446-452 | on every node with nothing mounted a mount that fails and yet mounts can leak |
| NodeStage.CancelledVerificationCanLeak | internal/csi/node_server.go:453-459 | so can a wrong mount whose unmount runs under a cancelled context |
| NodeStage.LeakedConnection | internal/csi/node_server.go:255-287 | an execution that fails and stays connected |
| NodeStage.LeakedMount | internal/csi/node_server.go:272-304 | an execution that fails and stays mounted |
| NodeStage.WorkingCommandsStageIff | internal/csi/node_server.go:427-462 | with working commands staging succeeds exactly when the expected mount is visible, or nothing is mounted and the filesystem is there or can be made |
| NodeStage.Node.NodeUnstageVolume | internal/csi/node_server.go:314-354 | success means unmounted and disconnected, and nothing is disconnected while still mounted |
| PlacementAuth.BigEndianRoundTrip | internal/placementauth/placement.go:58-63 | the length prefix is recovered |
| PlacementAuth.DecodeEncode | internal/placementauth/placement.go:58-63 | the length-prefixed encoding is uniquely decodable, whatever follows |
| PlacementAuth.EncodingIsUnambiguous | internal/placementauth/placement.go:38-63 | equal encodings of equally many components have equal components |
| PlacementAuth.Fingerprint | internal/placementauth/placement.go:38-56 | feeding the digest component by component hashes exactly that encoding, and incomplete input gives none |
| PlacementAuth.FingerprintBindsPlacement | internal/placementauth/placement.go:38-63 | equal fingerprints mean the same partition, node, serial number and claim |
| VolumeHandle.DecodeEncode | internal/volumeidentity/identity.go:37-46 | unpadded base64url (sections 5 and 3.2 of RFC 4648) decodes what it encodes, in texts free of dots |
| VolumeHandle.EncodeDecodeIff | internal/volumeidentity/identity.go:51-76 | re-encoding a decoded text gives it back exactly when it is canonical |
| VolumeHandle.ParseNew | internal/volumeidentity/identity.go:32-76 | parsing inverts issuing for all non-empty namespaces, names and UIDs |
| VolumeHandle.HandlesInjective | internal/volumeidentity/identity.go:32-48 | different objects never share a handle |
| VolumeHandle.IssuedIffCanonical | internal/volumeidentity/identity.go:51-76 | a parsed handle is the issued one exactly when its three fields are canonical |
| VolumeHandle.LooseHandleParses | internal/volumeidentity/identity.go:51-76 | two different texts that parse to the same object |
| VolumeHandle.NqnRoundTrip | internal/volumeidentity/identity.go:79-87 | the identifier is recovered from exactly the NQNs made from it |
| Capacity.RoundUp | internal/capacity/capacity.go:12-27 | the least whole number of 4 MiB units, and an error exactly outside the allocatable range |
| Capacity.OnlyLargestCapacityWraps | internal/capacity/capacity.go:19-27 | the intermediate sum overflows exactly for the largest capacity and wraps back |
| Capacity.SchemaLimitIsMaxAllocatable | api/v1alpha1/nvmepartition_types.go:45-46 | the schema's limit is the largest whole number of units in int64 |
| Capacity.NormalizeCapacityRange | internal/csi/controller_server.go:50-86 | succeeds exactly on absent or satisfiable ranges, with the least multiple covering the defaulted requirement, within the limit |
| Capacity.CheckedCapacityBytes | internal/agent/nvme_discovery.go:307-315 | the exact product, and an error exactly when it is not positive or exceeds int64 |
| Capacity.SplitPercentIsExact | internal/agent/nvme_discovery.go:325-326 | the split formula equals the exact floor of 99 percent |
| Capacity.AllocatableNamespaceBytes | internal/agent/nvme_discovery.go:317-332 | whole units of that floor, keeping at least one percent back, and an error exactly when none is left |

## Left out

- `placementCandidates` (filtering and ordering of candidates): the order affects which device is tried first, not what a reservation keeps.
- The text of `parted` output and of SPDK and nvme-cli JSON: replaced by typed observations that may fail.
- Stale informer caches, leadership overlap and more than one agent worker per node.
- Backend calls that take effect only after they have reported failure.
- Deletion of NVMeDevice objects; in `Lifecycle` a claim that moves to another device while a partition is being provisioned, a namesake placed on another node, and a partition number that another volume has taken over.
- Discovery (sysfs, RDMA, PCI), driver binding, SPDK daemon startup, gRPC plumbing, timers, requeue delays and heartbeats.
- NodePublishVolume and NodeUnpublishVolume (bind mounts of a staged path): shallow next to staging.
- Whitespace trimming of configfs values and the choice of the address family of a portal.
- Lifecycle.NothingLeaks: requires that the identity and finalizer patches land on the object that was read, because without that the property is false (`Lifecycle.FinalizerPatchIsSafeIff`).
- Reservation.NeverOversubscribed: requires that a name under reservation is not reused for a larger partition, because without that the property is false (`NameReuse.ReuseSafeIsTight`).
- AgentGate.PassedIsStamped: requires that identities are recorded in the object that was read, because without that the property is false (`AgentGate.UnstampedObjectPasses`).
- DeviceOwnership.LegacyMatchNeverFires: requires that the controller does not stop in the middle of a move, because without that the property is false (`DeviceOwnership.InterruptedMoveLosesMatch`).
- CarvingRuns.BooksBalance: requires that rows added by failed creates have the length asked for, because without that the property is false (`CarvingRuns.MisplacedRowBreaksAccount`).
- LvolRuns.BooksBalance: requires that volumes added by failed creates have the size asked for, because without that the property is false (`LvolRuns.OddVolumeBreaksAccount`); a new volume has one label in its store, as SPDK names it.
- CarvingRuns.ReservationCanBeCarved: covers the parted manager; where SPDK puts the clusters of a volume is not modelled.
