/**
 Provisioning and teardown of one partition name against claim release.

 Users create and delete partitions and claims; the storage-node agent (one worker) carves and
 exports volumes; the claim controller releases the device of a deleted claim.  Every read,
 every API write and every backend effect is a step of its own, and a failure at any point
 is a crash that leaves what was done.  API writes go by name: they land on whatever object
 has the name by then.  Volumes and exports are named after the external identifier, which
 is taken from the status and otherwise derived from the partition UID.  Objects are kept by
 finalizers: only the agent removes the partition finalizer and only the claim controller
 removes the claim's.  Partitions are placed on this node or not at all.
 */
module Lifecycle {
  import opened Options
  import opened Runs

  /** `nqn` and `backend` are the identifiers that the recorded NQN and backend identity lead to. */
  datatype Partition = Partition(
    uid: nat,
    external: Option<nat>,
    nqn: Option<nat>,
    backend: Option<nat>,
    placed: bool,
    claim: nat,
    finalizer: bool,
    deleting: bool)

  /** identitiesForPartition: the recorded identifier, else the one in the NQN, else the derived one. */
  function External(p: Partition): nat {
    if p.external.Some? then p.external.value else if p.nqn.Some? then p.nqn.value else p.uid
  }

  /** The export that teardown removes. */
  function ExportOf(p: Partition): nat {
    if p.nqn.Some? then p.nqn.value else External(p)
  }

  /** A claim object; it holds its finalizer. */
  datatype Claim = Claim(deleting: bool)

  /** The parted manager insists on the name of a recorded partition; the lvol manager goes by the record. */
  datatype Manager = Parted | Lvol

  /** `id` is the external identifier computed from the partition as it was read first. */
  datatype AgentPc =
    | Idle
    | Got(partition: Partition)
    | ClaimRead(partition: Partition)
    | Verified(partition: Partition)
    | Identified(partition: Partition)
    | Prepared(partition: Partition, id: nat)
    | Rechecked(partition: Partition, id: nat)
    | Carving(partition: Partition, id: nat)
    | Persisting(partition: Partition, id: nat)
    | Exporting(partition: Partition, id: nat)
    | Recording(partition: Partition, id: nat)
    | Unexporting(partition: Partition)
    | Deleting(partition: Partition)
    | Stripping(partition: Partition)

  datatype ControllerPc = Waiting | Listing(claim: nat) | Releasing(claim: nat) | Finishing(claim: nat)

  datatype State = State(
    manager: Manager,
    slot: Option<Partition>,
    used: set<nat>,
    claims: map<nat, Claim>,
    owner: Option<nat>,
    volumes: set<nat>,
    exports: set<nat>,
    agent: AgentPc,
    controller: ControllerPc)

  datatype Step =
    | CreatePartition(newPartition: Partition)
    | Place(claim: nat)
    | DeletePartition
    | CreateClaim(newClaim: nat)
    | BindDevice(bound: nat)
    | DeleteClaim(oldClaim: nat)
    | ReadPartition
    | ReadClaim
    | ReadDevice
    | PatchIdentity
    | PatchFinalizer
    | RecheckClaim
    | RecheckDevice
    | CarveVolume
    | PersistIdentity
    | ExportVolume
    | RecordExport
    | UnexportVolume
    | DeleteVolume
    | StripFinalizer
    | AgentCrash
    | StartFinalize(finalized: nat)
    | ListPartitions
    | ReleaseDevice
    | FinishClaim
    | ControllerCrash

  // ---------------------------------------------------------------- users and scheduler

  ghost predicate WorldNext(s: State, s': State, step: Step) {
    match step
    case CreatePartition(p) =>
      // The status of a new object is empty.
      && s.slot.None? && p.uid !in s.used && !p.deleting && p.external.None? && p.nqn.None? && p.backend.None?
      && s' == s.(slot := Some(p), used := s.used + {p.uid})
    case Place(c) =>
      // Placement is written once, and not to an object being deleted.
      && s.slot.Some? && !s.slot.value.placed && !s.slot.value.deleting
      && s' == s.(slot := Some(s.slot.value.(placed := true, claim := c)))
    case DeletePartition =>
      && s.slot.Some?
      && s' == s.(slot := if s.slot.value.finalizer then Some(s.slot.value.(deleting := true)) else None)
    case CreateClaim(c) =>
      // A UID that nothing could have referred to as a live claim before.
      && c !in s.used && s' == s.(claims := s.claims[c := Claim(false)], used := s.used + {c})
    case BindDevice(c) =>
      // Binding and release are the work of one controller worker.
      c in s.claims && s.owner.None? && s.controller.Waiting? && s' == s.(owner := Some(c))
    case DeleteClaim(c) => c in s.claims && s' == s.(claims := s.claims[c := Claim(true)])
    case _ => false
  }

  // ---------------------------------------------------------------- agent

  predicate ClaimStands(s: State, p: Partition) {
    p.placed && p.claim in s.claims && !s.claims[p.claim].deleting
  }

  /** Reconcile up to the last authorization check before carving. */
  ghost predicate Admits(s: State, s': State, step: Step) {
    match step
    case ReadPartition =>
      // Objects that are not placed on this node are left alone.
      && s.agent.Idle? && s.slot.Some? && s.slot.value.placed
      && s' == s.(agent := if !s.slot.value.deleting then Got(s.slot.value)
                           else if s.slot.value.finalizer then Unexporting(s.slot.value)
                           else Idle)
    case ReadClaim =>
      && s.agent.Got?
      && s' == s.(agent := if ClaimStands(s, s.agent.partition) then ClaimRead(s.agent.partition) else Idle)
    case ReadDevice =>
      && s.agent.ClaimRead?
      && s' == s.(agent := if s.owner == Some(s.agent.partition.claim) then Verified(s.agent.partition) else Idle)
    case PatchIdentity =>
      && s.agent.Verified?
      && var p := s.agent.partition;
         if p.external.Some? then s' == s.(agent := Identified(p))
         else if s.slot.None? then s' == s.(agent := Idle)
         else s' == s.(agent := Identified(p), slot := Some(s.slot.value.(external := Some(External(p)))))
    case PatchFinalizer =>
      // The response replaces the agent's copy; the identifier computed before stays.
      && s.agent.Identified?
      && var p := s.agent.partition;
         if p.finalizer then s' == s.(agent := Prepared(p, External(p)))
         else if s.slot.None? then s' == s.(agent := Idle)
         else
           var patched := s.slot.value.(finalizer := true);
           s' == s.(agent := Prepared(patched, External(p)), slot := Some(patched))
    case RecheckClaim =>
      && s.agent.Prepared?
      && s' == s.(agent := if ClaimStands(s, s.agent.partition) then Rechecked(s.agent.partition, s.agent.id) else Idle)
    case RecheckDevice =>
      && s.agent.Rechecked?
      && s' == s.(agent := if s.owner == Some(s.agent.partition.claim) then Carving(s.agent.partition, s.agent.id) else Idle)
    case _ => false
  }

  /** provisionPartition from the carve on. */
  ghost predicate Provisions(s: State, s': State, step: Step) {
    match step
    case CarveVolume =>
      && s.agent.Carving?
      && s' == s.(agent := Persisting(s.agent.partition, s.agent.id), volumes := s.volumes + {s.agent.id})
    case PersistIdentity =>
      && s.agent.Persisting?
      && var p, id := s.agent.partition, s.agent.id;
         if p.backend == Some(id) then s' == s.(agent := Exporting(p, id))
         else if s.slot.None? then s' == s.(agent := Idle)
         else s' == s.(agent := Exporting(p, id), slot := Some(s.slot.value.(backend := Some(id))))
    case ExportVolume =>
      && s.agent.Exporting?
      && s' == s.(agent := Recording(s.agent.partition, s.agent.id), exports := s.exports + {s.agent.id})
    case RecordExport =>
      && s.agent.Recording?
      && s' == s.(agent := Idle,
                  slot := if s.slot.None? then None else Some(s.slot.value.(nqn := Some(s.agent.id))))
    case AgentCrash => s' == s.(agent := Idle)
    case _ => false
  }

  /** The volume that deleting removes, if it is there. */
  function Target(m: Manager, p: Partition): nat {
    if m.Lvol? && p.backend.Some? then p.backend.value else External(p)
  }

  /** A recorded partition of another name is refused. */
  predicate Refuses(s: State, p: Partition) {
    s.manager.Parted? && p.backend.Some? && p.backend.value != External(p) && p.backend.value in s.volumes
  }

  /** A recorded partition that is gone counts as deleted, whatever its name was. */
  function Removed(m: Manager, p: Partition): set<nat> {
    if m.Parted? && p.backend.Some? && p.backend.value != External(p) then {} else {Target(m, p)}
  }

  ghost predicate TearsDown(s: State, s': State, step: Step) {
    match step
    case UnexportVolume =>
      s.agent.Unexporting? && s' == s.(agent := Deleting(s.agent.partition), exports := s.exports - {ExportOf(s.agent.partition)})
    case DeleteVolume =>
      && s.agent.Deleting?
      && var p := s.agent.partition;
         if Refuses(s, p) then s' == s.(agent := Idle)
         else s' == s.(agent := Stripping(p), volumes := s.volumes - Removed(s.manager, p))
    case StripFinalizer =>
      && s.agent.Stripping?
      && s' == s.(agent := Idle,
                  slot := if s.slot.None? || s.slot.value.deleting then None else Some(s.slot.value.(finalizer := false)))
    case _ => false
  }

  // ---------------------------------------------------------------- claim controller

  ghost predicate ControllerNext(s: State, s': State, step: Step) {
    match step
    case StartFinalize(c) =>
      s.controller.Waiting? && c in s.claims && s.claims[c].deleting && s' == s.(controller := Listing(c))
    case ListPartitions =>
      && s.controller.Listing?
      && s' == s.(controller := if s.slot.Some? && s.slot.value.placed && s.slot.value.claim == s.controller.claim
                                then Waiting else Releasing(s.controller.claim))
    case ReleaseDevice =>
      && s.controller.Releasing?
      && s' == s.(controller := Finishing(s.controller.claim),
                  owner := if s.owner == Some(s.controller.claim) then None else s.owner)
    case FinishClaim =>
      && s.controller.Finishing?
      && s' == s.(controller := Waiting, claims := s.claims - {s.controller.claim})
    case ControllerCrash => s' == s.(controller := Waiting)
    case _ => false
  }

  ghost predicate Next(s: State, s': State, step: Step) {
    WorldNext(s, s', step) || Admits(s, s', step) || Provisions(s, s', step) || TearsDown(s, s', step) || ControllerNext(s, s', step)
  }

  ghost predicate Init(s: State) {
    s == State(s.manager, None, {}, map[], None, {}, {}, Idle, Waiting)
  }

  /** The identity and the finalizer land on the object that was read. */
  predicate Faithful(s: State, step: Step) {
    (step.PatchIdentity? && s.agent.Verified?) || (step.PatchFinalizer? && s.agent.Identified?) ==>
      s.slot.Some? ==> s.slot.value.uid == s.agent.partition.uid
  }

  ghost predicate IsPath(run: seq<State>, steps: seq<Step>) {
    |run| == |steps| + 1 && forall i :: 0 <= i < |steps| ==> Next(run[i], run[i + 1], steps[i])
  }

  ghost predicate IsTrace(run: seq<State>, steps: seq<Step>) {
    IsPath(run, steps) && Init(run[0])
  }

  ghost predicate AllFaithful(run: seq<State>, steps: seq<Step>)
    requires |run| == |steps| + 1
  {
    forall i :: 0 <= i < |steps| ==> Faithful(run[i], steps[i])
  }

  // ---------------------------------------------------------------- what is kept

  /** Everything recorded in the object leads to its own identifier. */
  predicate Own(p: Partition) {
    && (p.external.Some? ==> p.external.value == p.uid)
    && (p.nqn.Some? ==> p.nqn.value == p.uid)
    && (p.backend.Some? ==> p.backend.value == p.uid)
  }

  /** The partition is the object in the API, held by the agent's finalizer. */
  predicate Held(s: State, p: Partition) {
    && s.slot.Some? && s.slot.value.uid == p.uid && s.slot.value.finalizer
    && (p.placed ==> s.slot.value.placed && s.slot.value.claim == p.claim)
  }

  /** The claim controller is past its look at the partitions. */
  predicate PastListing(c: ControllerPc, claim: nat) {
    (c.Releasing? || c.Finishing?) && c.claim == claim
  }

  /** The claim exists, owns the device, and is not on its way out. */
  predicate Secured(s: State, claim: nat) {
    claim in s.claims && s.owner == Some(claim) && !PastListing(s.controller, claim)
  }

  /** Every volume and every export belongs to the object in the API, which the finalizer
      holds, and to a claim that still owns the device. */
  ghost predicate NoOrphans(s: State) {
    forall v :: v in s.volumes || v in s.exports ==>
      && s.slot.Some? && s.slot.value.uid == v && s.slot.value.finalizer && s.slot.value.placed
      && Secured(s, s.slot.value.claim)
  }

  /** While the object that was read still exists, what its authorization rested on still holds. */
  predicate StillAuthorized(s: State, p: Partition) {
    && p.placed
    && (s.slot.Some? && s.slot.value.uid == p.uid ==>
          s.slot.value.placed && s.slot.value.claim == p.claim && Secured(s, p.claim))
  }

  /** The same, before the device has been read: the claim cannot be past its listing. */
  predicate ClaimPinned(s: State, p: Partition) {
    && p.placed
    && (s.slot.Some? && s.slot.value.uid == p.uid ==>
          s.slot.value.placed && s.slot.value.claim == p.claim && p.claim in s.claims && !PastListing(s.controller, p.claim))
  }

  ghost predicate ReadInv(s: State, p: Partition) {
    && p.uid in s.used && Own(p)
    && (s.slot.Some? && s.slot.value.uid == p.uid && p.placed ==> s.slot.value.placed && s.slot.value.claim == p.claim)
    && (p.finalizer ==> Held(s, p))
  }

  ghost predicate Working(s: State, p: Partition, id: nat) {
    Held(s, p) && Own(p) && id == p.uid && StillAuthorized(s, p)
  }

  ghost predicate Leaving(s: State, p: Partition) {
    Held(s, p) && Own(p) && p.placed && s.slot.value.deleting
  }

  ghost predicate AgentInv(s: State) {
    match s.agent
    case Idle => true
    case Got(p) => ReadInv(s, p)
    case ClaimRead(p) => ReadInv(s, p) && ClaimPinned(s, p)
    case Verified(p) => ReadInv(s, p) && StillAuthorized(s, p)
    case Identified(p) => ReadInv(s, p) && StillAuthorized(s, p)
    case Prepared(p, id) => Working(s, p, id)
    case Rechecked(p, id) => Working(s, p, id)
    case Carving(p, id) => Working(s, p, id)
    case Persisting(p, id) => Working(s, p, id)
    case Exporting(p, id) => Working(s, p, id)
    case Recording(p, id) => Working(s, p, id)
    case Unexporting(p) => Leaving(s, p)
    case Deleting(p) => Leaving(s, p) && p.uid !in s.exports
    case Stripping(p) => Leaving(s, p) && p.uid !in s.exports && p.uid !in s.volumes
  }

  ghost predicate ControllerInv(s: State) {
    match s.controller
    case Waiting => true
    case Listing(c) => c in s.claims && s.claims[c].deleting
    case Releasing(c) => c in s.claims && s.claims[c].deleting
    case Finishing(c) => c in s.claims && s.claims[c].deleting && s.owner != Some(c)
  }

  ghost predicate Inv(s: State) {
    && NoOrphans(s) && AgentInv(s) && ControllerInv(s)
    && (s.slot.Some? ==> s.slot.value.uid in s.used && Own(s.slot.value))
    && (s.owner.Some? ==> s.owner.value in s.claims)
    && (forall c :: c in s.claims ==> c in s.used)
  }

  lemma PartitionChangePreservesInv(s: State, s': State, step: Step)
    requires Inv(s) && WorldNext(s, s', step) && (step.CreatePartition? || step.Place? || step.DeletePartition?)
    ensures Inv(s')
  {
  }

  lemma ClaimChangePreservesInv(s: State, s': State, step: Step)
    requires Inv(s) && WorldNext(s, s', step) && (step.CreateClaim? || step.BindDevice? || step.DeleteClaim?)
    ensures Inv(s')
  {
  }

  lemma AdmissionPreservesInv(s: State, s': State, step: Step)
    requires Inv(s) && Admits(s, s', step) && Faithful(s, step)
    ensures Inv(s')
  {
  }

  lemma ProvisioningPreservesInv(s: State, s': State, step: Step)
    requires Inv(s) && Provisions(s, s', step)
    ensures Inv(s')
  {
  }

  lemma TeardownPreservesInv(s: State, s': State, step: Step)
    requires Inv(s) && TearsDown(s, s', step)
    ensures Inv(s')
  {
  }

  /** A listing that sees a partition of the claim sends the controller back to waiting. */
  lemma ListingPreservesInv(s: State, s': State)
    requires Inv(s) && ControllerNext(s, s', ListPartitions)
    ensures Inv(s')
  {
  }

  lemma WaitingPreservesInv(s: State, s': State, step: Step)
    requires Inv(s) && ControllerNext(s, s', step) && (step.StartFinalize? || step.ControllerCrash?)
    ensures Inv(s')
  {
  }

  /** The listing saw no partition of the claim, so nothing rests on its ownership. */
  lemma ReleasePreservesInv(s: State, s': State)
    requires Inv(s) && ControllerNext(s, s', ReleaseDevice)
    ensures Inv(s')
  {
  }

  lemma FinishPreservesInv(s: State, s': State)
    requires Inv(s) && ControllerNext(s, s', FinishClaim)
    ensures Inv(s')
  {
  }

  lemma StepPreservesInv(s: State, s': State, step: Step)
    requires Inv(s) && Next(s, s', step) && Faithful(s, step)
    ensures Inv(s')
  {
    if step.CreatePartition? || step.Place? || step.DeletePartition? {
      PartitionChangePreservesInv(s, s', step);
    } else if step.CreateClaim? || step.BindDevice? || step.DeleteClaim? {
      ClaimChangePreservesInv(s, s', step);
    } else if Admits(s, s', step) {
      AdmissionPreservesInv(s, s', step);
    } else if Provisions(s, s', step) {
      ProvisioningPreservesInv(s, s', step);
    } else if TearsDown(s, s', step) {
      TeardownPreservesInv(s, s', step);
    } else if step.ReleaseDevice? {
      ReleasePreservesInv(s, s');
    } else if step.FinishClaim? {
      FinishPreservesInv(s, s');
    } else if step.ListPartitions? {
      ListingPreservesInv(s, s');
    } else {
      WaitingPreservesInv(s, s', step);
    }
  }

  lemma {:induction false} RunKeepsInv(run: seq<State>, steps: seq<Step>, i: nat)
    requires IsTrace(run, steps) && AllFaithful(run, steps) && i < |run|
    ensures Inv(run[i])
  {
    if i > 0 {
      RunKeepsInv(run, steps, i - 1);
      assert Next(run[i - 1], run[(i - 1) + 1], steps[i - 1]);
      StepPreservesInv(run[i - 1], run[i], steps[i - 1]);
    }
  }

  // ---------------------------------------------------------------- theorems

  /** Whatever is carved or exported, after whatever crashes, is held by a finalizer that will
      tear it down, under a claim that still owns the device. */
  lemma NothingLeaks(run: seq<State>, steps: seq<Step>, i: nat)
    requires IsTrace(run, steps) && AllFaithful(run, steps) && i < |run|
    ensures NoOrphans(run[i])
  {
    RunKeepsInv(run, steps, i);
  }

  /** A partition object goes away only when neither its volume nor its export is left. */
  lemma GoneMeansCleaned(run: seq<State>, steps: seq<Step>, i: nat, uid: nat)
    requires IsTrace(run, steps) && AllFaithful(run, steps) && i < |run|
    requires run[i].slot.None? || run[i].slot.value.uid != uid
    ensures uid !in run[i].volumes && uid !in run[i].exports
  {
    RunKeepsInv(run, steps, i);
  }

  /** A claim that is gone, or no longer owns the device, left no volume behind. */
  lemma ReleasedMeansEmpty(run: seq<State>, steps: seq<Step>, i: nat)
    requires IsTrace(run, steps) && AllFaithful(run, steps) && i < |run|
    requires run[i].slot.Some? && run[i].owner != Some(run[i].slot.value.claim)
    ensures run[i].volumes == {} && run[i].exports == {}
  {
    RunKeepsInv(run, steps, i);
  }

  // ---------------------------------------------------------------- authorized work

  predicate AtWork(a: AgentPc) {
    a.Carving? || a.Persisting? || a.Exporting? || a.Recording?
  }

  /** What the second authorization check gives, whichever object the patches landed on. */
  predicate CheckedInv(s: State) {
    match s.agent
    case Got(p) => p.finalizer ==> Held(s, p)
    case ClaimRead(p) => p.finalizer ==> Held(s, p)
    case Verified(p) => p.finalizer ==> Held(s, p)
    case Identified(p) => p.finalizer ==> Held(s, p)
    case Prepared(p, _) => Held(s, p)
    case Rechecked(p, _) => Held(s, p) && p.placed && p.claim in s.claims && !PastListing(s.controller, p.claim)
    case Carving(p, _) => Held(s, p) && p.placed && Secured(s, p.claim)
    case Persisting(p, _) => Held(s, p) && p.placed && Secured(s, p.claim)
    case Exporting(p, _) => Held(s, p) && p.placed && Secured(s, p.claim)
    case Recording(p, _) => Held(s, p) && p.placed && Secured(s, p.claim)
    case _ => true
  }

  ghost predicate WorkInv(s: State) {
    CheckedInv(s) && ControllerInv(s) && forall c :: c in s.claims ==> c in s.used
  }

  lemma WorldKeepsWorkInv(s: State, s': State, step: Step)
    requires WorkInv(s) && WorldNext(s, s', step)
    ensures WorkInv(s')
  {
  }

  lemma AgentKeepsWorkInv(s: State, s': State, step: Step)
    requires WorkInv(s) && (Admits(s, s', step) || Provisions(s, s', step) || TearsDown(s, s', step))
    ensures WorkInv(s')
  {
  }

  lemma ControllerKeepsWorkInv(s: State, s': State, step: Step)
    requires WorkInv(s) && ControllerNext(s, s', step)
    ensures WorkInv(s')
  {
  }

  lemma {:induction false} RunKeepsWorkInv(run: seq<State>, steps: seq<Step>, i: nat)
    requires IsTrace(run, steps) && i < |run|
    ensures WorkInv(run[i])
  {
    if i > 0 {
      RunKeepsWorkInv(run, steps, i - 1);
      assert Next(run[i - 1], run[(i - 1) + 1], steps[i - 1]);
      if WorldNext(run[i - 1], run[i], steps[i - 1]) {
        WorldKeepsWorkInv(run[i - 1], run[i], steps[i - 1]);
      } else if ControllerNext(run[i - 1], run[i], steps[i - 1]) {
        ControllerKeepsWorkInv(run[i - 1], run[i], steps[i - 1]);
      } else {
        AgentKeepsWorkInv(run[i - 1], run[i], steps[i - 1]);
      }
    }
  }

  /** From the carve to the record, in every trace and whichever object the patches landed on, the
      claim of the partition in the agent's hands exists and owns the device. */
  lemma WorkIsAuthorized(run: seq<State>, steps: seq<Step>, i: nat)
    requires IsTrace(run, steps) && i < |run| && AtWork(run[i].agent)
    ensures run[i].owner == Some(run[i].agent.partition.claim) && run[i].agent.partition.claim in run[i].claims
  {
    RunKeepsWorkInv(run, steps, i);
  }

  // ---------------------------------------------------------------- exactly when

  /** Prepared while the finalizer went to the object that was read, a carve leaves no orphan;
      otherwise it does. */
  lemma FinalizerPatchIsSafeIff(s: State, s1: State, s2: State, s3: State, s4: State)
    requires Inv(s) && s.agent.Identified? && !s.agent.partition.finalizer && s.slot.Some?
    requires Next(s, s1, PatchFinalizer) && Next(s1, s2, RecheckClaim) && Next(s2, s3, RecheckDevice) && Next(s3, s4, CarveVolume)
    ensures NoOrphans(s4) <==> s.slot.value.uid == s.agent.partition.uid
  {
    assert s.agent.partition.uid in s4.volumes;
    if s.slot.value.uid == s.agent.partition.uid {
      StepPreservesInv(s, s1, PatchFinalizer);
      StepPreservesInv(s1, s2, RecheckClaim);
      StepPreservesInv(s2, s3, RecheckDevice);
      StepPreservesInv(s3, s4, CarveVolume);
    }
  }

  /** The identity patch keeps every record leading to its own object exactly when it goes to
      the object that was read. */
  lemma IdentityPatchIsSafeIff(s: State, s': State)
    requires Inv(s) && s.agent.Verified? && s.agent.partition.external.None? && s.slot.Some?
    requires Next(s, s', PatchIdentity)
    ensures s'.slot.Some? && (Own(s'.slot.value) <==> s.slot.value.uid == s.agent.partition.uid)
    ensures Inv(s') <==> s.slot.value.uid == s.agent.partition.uid
  {
    if s.slot.value.uid == s.agent.partition.uid {
      StepPreservesInv(s, s', PatchIdentity);
    }
  }

  // ---------------------------------------------------------------- a name used again

  /** Teardown of the object, now or after a further provisioning, can remove volume `v`. */
  predicate Reaches(m: Manager, p: Partition, v: nat) {
    External(p) == v || (m.Lvol? && p.backend == Some(v))
  }

  /** A volume that nothing leads to: no object, and nothing the agent has in hand. */
  predicate Orphan(s: State, v: nat) {
    && v in s.volumes && v in s.used
    && (s.slot.Some? ==> !Reaches(s.manager, s.slot.value, v))
    && (!s.agent.Idle? ==> !Reaches(s.manager, s.agent.partition, v))
    && (WithId(s.agent) ==> s.agent.id != v)
  }

  predicate WithId(a: AgentPc) {
    a.Prepared? || a.Rechecked? || a.Carving? || a.Persisting? || a.Exporting? || a.Recording?
  }

  /** Nothing ever deletes an orphan. */
  lemma OrphansStay(s: State, s': State, step: Step, v: nat)
    requires Orphan(s, v) && Next(s, s', step)
    ensures Orphan(s', v) && s'.manager == s.manager
  {
    if WorldNext(s, s', step) {
    } else if Admits(s, s', step) {
    } else if Provisions(s, s', step) {
    } else if TearsDown(s, s', step) {
    } else {
      assert ControllerNext(s, s', step);
    }
  }

  lemma {:induction false} OrphansStayForever(run: seq<State>, steps: seq<Step>, i: nat, j: nat, v: nat)
    requires IsPath(run, steps) && i <= j < |run| && Orphan(run[i], v)
    ensures Orphan(run[j], v)
    decreases j - i
  {
    if i < j {
      OrphansStay(run[i], run[i + 1], steps[i], v);
      OrphansStayForever(run, steps, i + 1, j, v);
    }
  }

  lemma Extended(run: seq<State>, steps: seq<Step>, s': State, step: Step) returns (run': seq<State>, steps': seq<Step>)
    requires IsPath(run, steps) && Next(Last(run), s', step)
    ensures run' == run + [s'] && steps' == steps + [step] && IsPath(run', steps') && Last(run') == s' && run'[0] == run[0]
  {
    run', steps' := run + [s'], steps + [step];
    forall i | 0 <= i < |steps'|
      ensures Next(run'[i], run'[i + 1], steps'[i])
    {
      if i < |steps| {
        assert Next(run[i], run[i + 1], steps[i]);
      }
    }
  }

  /** The object can still be torn down: it is held, and placed or placeable. */
  predicate Removable(p: Partition) {
    p.finalizer && (p.placed || !p.deleting)
  }

  /** What is recorded of the volume does not name another one. */
  predicate Settled(p: Partition, v: nat) {
    External(p) == v && p.backend.Some? ==> p.backend.value == v
  }

  /** The object is placed and marked for deletion. */
  lemma MarkedForDeletion(run: seq<State>, steps: seq<Step>) returns (run': seq<State>, steps': seq<Step>)
    requires IsPath(run, steps) && Last(run).agent.Idle? && Last(run).slot.Some? && Removable(Last(run).slot.value)
    ensures IsPath(run', steps') && run'[0] == run[0] && Last(run').slot.Some? && Last(run').slot.value.placed && Last(run').slot.value.deleting
    ensures Last(run') == Last(run).(slot := Some(Last(run).slot.value.(placed := true, claim := Last(run').slot.value.claim, deleting := true)))
  {
    run', steps' := run, steps;
    if !Last(run').slot.value.placed {
      run', steps' := Extended(run', steps', Last(run').(slot := Some(Last(run').slot.value.(placed := true, claim := 0))), Place(0));
    }
    if !Last(run').slot.value.deleting {
      run', steps' := Extended(run', steps', Last(run').(slot := Some(Last(run').slot.value.(deleting := true))), DeletePartition);
    }
  }

  /** A volume that a removable object leads to can still be deleted. */
  lemma CanBeTornDown(run: seq<State>, steps: seq<Step>, v: nat) returns (run': seq<State>, steps': seq<Step>)
    requires IsPath(run, steps) && Last(run).agent.Idle? && Last(run).slot.Some? && Removable(Last(run).slot.value)
    requires Reaches(Last(run).manager, Last(run).slot.value, v) && Settled(Last(run).slot.value, v)
    ensures IsPath(run', steps') && run'[0] == run[0] && v !in Last(run').volumes && Last(run').slot.None?
  {
    run', steps' := MarkedForDeletion(run, steps);
    var s := Last(run');
    var p := s.slot.value;
    run', steps' := Extended(run', steps', s.(agent := Unexporting(p)), ReadPartition);
    var unexported := s.(agent := Deleting(p), exports := s.exports - {ExportOf(p)});
    run', steps' := Extended(run', steps', unexported, UnexportVolume);
    var deleted := unexported.(agent := Stripping(p), volumes := s.volumes - Removed(s.manager, p));
    run', steps' := Extended(run', steps', deleted, DeleteVolume);
    run', steps' := Extended(run', steps', deleted.(agent := Idle, slot := None), StripFinalizer);
  }

  ghost predicate StaysForever(s: State, v: nat) {
    forall run, steps :: IsPath(run, steps) && run[0] == s ==> v in Last(run).volumes
  }

  /** Once the agent has stopped, a carved volume stays for ever exactly when the object that has
      the name does not lead to it. */
  lemma StaysForeverIff(s: State, v: nat)
    requires s.agent.Idle? && v in s.volumes && v in s.used
    requires s.slot.Some? ==> Removable(s.slot.value) && Settled(s.slot.value, v)
    ensures StaysForever(s, v) <==> s.slot.None? || !Reaches(s.manager, s.slot.value, v)
  {
    if s.slot.Some? && Reaches(s.manager, s.slot.value, v) {
      var run, steps := CanBeTornDown([s], [], v);
    } else {
      forall run, steps | IsPath(run, steps) && run[0] == s
        ensures v in Last(run).volumes
      {
        OrphansStayForever(run, steps, 0, |run| - 1, v);
      }
    }
  }

  // ---------------------------------------------------------------- and the export

  /** Teardown of the object, now or after a further provisioning, can remove export `v`. */
  predicate LeadsToExport(p: Partition, v: nat) {
    External(p) == v || p.nqn == Some(v)
  }

  predicate OrphanedExport(s: State, v: nat) {
    && v in s.exports && v in s.used
    && (s.slot.Some? ==> !LeadsToExport(s.slot.value, v))
    && (!s.agent.Idle? ==> !LeadsToExport(s.agent.partition, v))
    && (WithId(s.agent) ==> s.agent.id != v)
  }

  lemma OrphanedExportStays(s: State, s': State, step: Step, v: nat)
    requires OrphanedExport(s, v) && Next(s, s', step)
    ensures OrphanedExport(s', v)
  {
    if WorldNext(s, s', step) {
    } else if Admits(s, s', step) {
    } else if Provisions(s, s', step) {
    } else if TearsDown(s, s', step) {
    } else {
      assert ControllerNext(s, s', step);
    }
  }

  lemma {:induction false} OrphanedExportStaysAlong(run: seq<State>, steps: seq<Step>, i: nat, v: nat)
    requires IsPath(run, steps) && i < |run| && OrphanedExport(run[0], v)
    ensures OrphanedExport(run[i], v)
  {
    if i > 0 {
      OrphanedExportStaysAlong(run, steps, i - 1, v);
      assert Next(run[i - 1], run[(i - 1) + 1], steps[i - 1]);
      OrphanedExportStays(run[i - 1], run[i], steps[i - 1], v);
    }
  }

  ghost predicate ServedForever(s: State, v: nat) {
    forall run, steps :: IsPath(run, steps) && run[0] == s ==> v in Last(run).exports
  }

  /** Once the agent has stopped, an export stays for ever exactly when the object that has the
      name does not lead to it. */
  lemma ServedForeverIff(s: State, v: nat)
    requires s.agent.Idle? && v in s.exports && v in s.used
    requires s.slot.Some? ==> Removable(s.slot.value) && (External(s.slot.value) == v && s.slot.value.nqn.Some? ==> s.slot.value.nqn.value == v)
    ensures ServedForever(s, v) <==> s.slot.None? || !LeadsToExport(s.slot.value, v)
  {
    if s.slot.Some? && LeadsToExport(s.slot.value, v) {
      var run, steps := MarkedForDeletion([s], []);
      var marked := Last(run);
      var p := marked.slot.value;
      run, steps := Extended(run, steps, marked.(agent := Unexporting(p)), ReadPartition);
      run, steps := Extended(run, steps, marked.(agent := Deleting(p), exports := marked.exports - {ExportOf(p)}), UnexportVolume);
    } else {
      forall run, steps | IsPath(run, steps) && run[0] == s
        ensures v in Last(run).exports
      {
        OrphanedExportStaysAlong(run, steps, |run| - 1, v);
      }
    }
  }

  // ---------------------------------------------------------------- the fate of a mistake

  /** A namesake that nothing has been recorded in yet, and that the agent works on under the
      identifier of its predecessor. */
  predicate Mistaken(s: State) {
    && s.agent.Carving? && s.agent.id in s.used && s.agent.partition.backend.None?
    && s.slot.Some? && s.slot.value.uid != s.agent.id
    && s.slot.value.external.None? && s.slot.value.nqn.None? && s.slot.value.backend.None?
  }

  /** Left alone, the namesake adopts the volume exactly from the step at which the NQN is
      recorded, and with the lvol manager from the step at which the backend identity is. */
  lemma AdoptedExactlyWhen(run: seq<State>, k: nat)
    requires IsPath(run, [CarveVolume, PersistIdentity, ExportVolume, RecordExport]) && Mistaken(run[0]) && 1 <= k <= 4
    ensures run[0].agent.id in run[k].volumes && run[k].slot.Some? && run[k].manager == run[0].manager
    ensures Reaches(run[k].manager, run[k].slot.value, run[0].agent.id) <==> k == 4 || (k >= 2 && run[0].manager.Lvol?)
    ensures Settled(run[k].slot.value, run[0].agent.id)
    ensures LeadsToExport(run[k].slot.value, run[0].agent.id) <==> k == 4
    ensures k >= 3 ==> run[0].agent.id in run[k].exports
    ensures run[k].slot.value.nqn == if k == 4 then Some(run[0].agent.id) else None
    ensures run[k].slot.value.finalizer == run[0].slot.value.finalizer && run[k].slot.value.placed == run[0].slot.value.placed
    ensures run[k].slot.value.deleting == run[0].slot.value.deleting && run[0].agent.id in run[k].used
  {
    var steps := [CarveVolume, PersistIdentity, ExportVolume, RecordExport];
    assert Next(run[0], run[0 + 1], steps[0]);
    assert Next(run[1], run[1 + 1], steps[1]);
    assert Next(run[2], run[2 + 1], steps[2]);
    assert Next(run[3], run[3 + 1], steps[3]);
  }

  /** So the fate of the volume is decided by where the agent stops, and so is that of the export:
      stopped before the record, the agent leaves an export that nothing removes, even where the
      logical volume behind it is torn down. */
  lemma FateOfMistakenVolume(run: seq<State>, k: nat)
    requires IsPath(run, [CarveVolume, PersistIdentity, ExportVolume, RecordExport]) && Mistaken(run[0]) && 1 <= k <= 4
    requires Removable(run[0].slot.value)
    ensures StaysForever(run[k].(agent := Idle), run[0].agent.id) <==> k < 2 || (k < 4 && run[0].manager.Parted?)
    ensures k >= 3 ==> (ServedForever(run[k].(agent := Idle), run[0].agent.id) <==> k < 4)
  {
    AdoptedExactlyWhen(run, k);
    StaysForeverIff(run[k].(agent := Idle), run[0].agent.id);
    if k >= 3 {
      ServedForeverIff(run[k].(agent := Idle), run[0].agent.id);
    }
  }

  // ---------------------------------------------------------------- runs

  ghost function Start(m: Manager): State {
    State(m, None, {}, map[], None, {}, {}, Idle, Waiting)
  }

  function First(): Partition {
    Partition(1, None, None, None, true, 0, false, false)
  }

  function Second(): Partition {
    Partition(2, None, None, None, true, 0, true, false)
  }

  /** A claim binds the device and a partition is placed on it. */
  lemma PlacedRun(m: Manager) returns (run: seq<State>, steps: seq<Step>)
    ensures IsPath(run, steps) && run[0] == Start(m)
    ensures Last(run) == State(m, Some(First()), {0, 1}, map[0 := Claim(false)], Some(0), {}, {}, Idle, Waiting)
  {
    run, steps := [Start(m)], [];
    run, steps := Extended(run, steps, Last(run).(claims := map[0 := Claim(false)], used := {0}), CreateClaim(0));
    run, steps := Extended(run, steps, Last(run).(owner := Some(0)), BindDevice(0));
    run, steps := Extended(run, steps, Last(run).(slot := Some(First()), used := {0, 1}), CreatePartition(First()));
  }

  /** The partition is read, its claim verified and its identifier recorded. */
  lemma IdentifiedRun(m: Manager) returns (run: seq<State>, steps: seq<Step>)
    ensures IsPath(run, steps) && run[0] == Start(m)
    ensures Last(run) == State(m, Some(First().(external := Some(1))), {0, 1}, map[0 := Claim(false)], Some(0), {}, {}, Identified(First()), Waiting)
  {
    run, steps := PlacedRun(m);
    run, steps := Extended(run, steps, Last(run).(agent := Got(First())), ReadPartition);
    run, steps := Extended(run, steps, Last(run).(agent := ClaimRead(First())), ReadClaim);
    run, steps := Extended(run, steps, Last(run).(agent := Verified(First())), ReadDevice);
    run, steps := Extended(run, steps, Last(run).(slot := Some(First().(external := Some(1))), agent := Identified(First())), PatchIdentity);
  }

  /** It is deleted, and its name used again and placed, before the finalizer patch. */
  lemma ReusedRun(m: Manager) returns (run: seq<State>, steps: seq<Step>)
    ensures IsPath(run, steps) && run[0] == Start(m)
    ensures Last(run) == State(m, Some(Second()), {0, 1, 2}, map[0 := Claim(false)], Some(0), {}, {}, Prepared(Second(), 1), Waiting)
  {
    run, steps := IdentifiedRun(m);
    var q := Partition(2, None, None, None, false, 0, false, false);
    run, steps := Extended(run, steps, Last(run).(slot := None), DeletePartition);
    run, steps := Extended(run, steps, Last(run).(slot := Some(q), used := {0, 1, 2}), CreatePartition(q));
    run, steps := Extended(run, steps, Last(run).(slot := Some(q.(placed := true))), Place(0));
    run, steps := Extended(run, steps, Last(run).(slot := Some(Second()), agent := Prepared(Second(), 1)), PatchFinalizer);
  }

  /** The agent then carves for the namesake under the identifier of the first partition. */
  lemma MistakenRun(m: Manager) returns (run: seq<State>, steps: seq<Step>)
    ensures IsTrace(run, steps) && Mistaken(Last(run)) && Removable(Last(run).slot.value)
    ensures Last(run).agent == Carving(Second(), 1) && Last(run).slot == Some(Second()) && Last(run).manager == m
  {
    run, steps := ReusedRun(m);
    run, steps := Extended(run, steps, Last(run).(agent := Rechecked(Second(), 1)), RecheckClaim);
    run, steps := Extended(run, steps, Last(run).(agent := Carving(Second(), 1)), RecheckDevice);
  }

  /** Stopping right after the carve leaves a volume that stays for ever. */
  lemma NameReuseOrphansVolume(m: Manager) returns (run: seq<State>, steps: seq<Step>)
    ensures IsTrace(run, steps) && Last(run).agent.Idle? && 1 in Last(run).volumes && StaysForever(Last(run), 1)
  {
    run, steps := MistakenRun(m);
    run, steps := Extended(run, steps, Last(run).(agent := Persisting(Second(), 1), volumes := Last(run).volumes + {1}), CarveVolume);
    run, steps := Extended(run, steps, Last(run).(agent := Idle), AgentCrash);
    StaysForeverIff(Last(run), 1);
  }

  /** Stopping right before the record leaves an export that stays for ever, whatever becomes of
      the volume behind it. */
  lemma NameReuseOrphansExport(m: Manager) returns (run: seq<State>, steps: seq<Step>)
    ensures IsTrace(run, steps) && Last(run).agent.Idle? && 1 in Last(run).exports && ServedForever(Last(run), 1)
    ensures StaysForever(Last(run), 1) <==> m.Parted?
  {
    run, steps := MistakenRun(m);
    run, steps := Extended(run, steps, Last(run).(agent := Persisting(Second(), 1), volumes := Last(run).volumes + {1}), CarveVolume);
    run, steps := Extended(run, steps, Last(run).(agent := Exporting(Second(), 1), slot := Some(Second().(backend := Some(1)))), PersistIdentity);
    run, steps := Extended(run, steps, Last(run).(agent := Recording(Second(), 1), exports := Last(run).exports + {1}), ExportVolume);
    run, steps := Extended(run, steps, Last(run).(agent := Idle), AgentCrash);
    StaysForeverIff(Last(run), 1);
    ServedForeverIff(Last(run), 1);
  }

  /** Going on, the namesake adopts the volume, and its teardown removes it. */
  lemma NameReuseAdoptsVolume(m: Manager) returns (run: seq<State>, steps: seq<Step>, run': seq<State>, steps': seq<Step>)
    ensures IsTrace(run, steps) && 1 in Last(run).volumes && Last(run).slot.Some? && Last(run).slot.value.uid == 2 && External(Last(run).slot.value) == 1
    ensures IsTrace(run', steps') && 1 !in Last(run').volumes && Last(run').slot.None?
  {
    run, steps := MistakenRun(m);
    run, steps := Extended(run, steps, Last(run).(agent := Persisting(Second(), 1), volumes := Last(run).volumes + {1}), CarveVolume);
    var persisted := Second().(backend := Some(1));
    run, steps := Extended(run, steps, Last(run).(agent := Exporting(Second(), 1), slot := Some(persisted)), PersistIdentity);
    run, steps := Extended(run, steps, Last(run).(agent := Recording(Second(), 1), exports := Last(run).exports + {1}), ExportVolume);
    run, steps := Extended(run, steps, Last(run).(agent := Idle, slot := Some(persisted.(nqn := Some(1)))), RecordExport);
    run', steps' := CanBeTornDown(run, steps, 1);
  }
}
