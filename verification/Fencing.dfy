/**
 The single-writer fencing protocol of one volume.

 The CSI controller, the storage-node agent, administrators and other API clients
 act on one NVMeVolumeAttachment name (derived from the partition UID) and one
 NVMe-oF target.  Every API call and every backend call is a step of its own, so
 all interleavings of those calls are runs of `Next`.  API reads are current and
 each node has one agent worker; a backend call that reports failure may or may
 not have taken effect before it returned.
 */
module Fencing {
  import opened Options

  /** Deterministic host identity of a node; the digest is taken to be injective. */
  datatype HostNqn = HostNqn(node: string)

  /** NVMeVolumeAttachment: immutable spec, fencing metadata and agent-owned status. */
  datatype Attachment = Attachment(
    id: nat,
    volumeMatches: bool,
    node: string,
    host: HostNqn,
    finalizer: bool,
    deleting: bool,
    forceDetach: Option<string>,
    observed: Option<nat>,
    ready: bool)

  datatype Backend = Kernel | Spdk

  datatype Target = Target(present: bool, hosts: set<HostNqn>, linked: bool)

  /** Why the agent is switching hosts: for an attachment (or none), or to tear down. */
  datatype Goal = Access(attachment: Option<Attachment>) | Teardown

  datatype AgentPc =
    | Idle
    | Fetch
    | Inspect(goal: Goal)
    | Disconnect(goal: Goal, stale: set<HostNqn>)
    | Revoke(goal: Goal, stale: set<HostNqn>)
    | Grant(goal: Goal)
    | Reconnect(goal: Goal)
    | Report(goal: Goal)
    | Strip(record: Attachment)
    | GetStatus(record: Attachment, granted: bool)
    | PatchStatus(record: Attachment, granted: bool, base: Attachment)
    | Exporting
    | DropTarget
    | ReleaseGet
    | ReleaseDelete
    | ReleaseReget
    | ReleaseStrip
    | Finish

  datatype CsiPc =
    | PublishFind(node: string)
    | PublishGet(node: string)
    | PublishCreate(node: string)
    | PublishForceDelete(node: string)
    | PublishWaitDeleted(node: string)
    | WaitReady(node: string, id: nat)
    | Published(node: string, id: nat)
    | UnpublishFind(target: Option<string>)
    | UnpublishGet(target: Option<string>)
    | UnpublishDelete(target: Option<string>)
    | UnpublishWaitDeleted(target: Option<string>)
    | Unpublished(target: Option<string>)
    | Failed

  /** `issued` records the node of every attachment identifier ever created. */
  datatype State = State(
    backend: Backend,
    slot: Option<Attachment>,
    issued: map<nat, string>,
    target: Target,
    partitionDeleting: bool,
    partitionGone: bool,
    agent: AgentPc,
    calls: map<nat, CsiPc>)

  datatype SwitchCall = Unlink | RemoveHost(host: HostNqn) | RevocationDone | AddHost | Relink
  datatype ReportCall = Outcome | StripFinalizer | ReadStatus | WriteStatus
  datatype ExportCall = CreateTarget | ReplaceTarget | SetLink(up: bool) | ExportDone
  datatype ReleaseCall = DeleteTarget | ReleaseRead | ReleaseMark | ReleaseReread | ReleaseClear | RemovePartition

  datatype AgentStep =
    | Start
    | StartExport
    | StartDeletion
    | Crash
    | FetchAttachment
    | InspectHosts
    | Switch(switchCall: SwitchCall, ok: bool, applied: bool)
    | ReportVia(reportCall: ReportCall)
    | ExportVia(exportCall: ExportCall)
    | ReleaseVia(releaseCall: ReleaseCall)

  datatype CsiStep = Begin(pc: CsiPc) | Advance | GiveUp

  datatype Step =
    | AgentActs(agentStep: AgentStep)
    | CsiActs(call: nat, csiStep: CsiStep)
    | Annotate(value: string)
    | ForeignCreate(record: Attachment)
    | ForeignDelete
    | DeletePartition

  // ---------------------------------------------------------------- API server

  /** A record the agent accepts: fencing finalizer held, exact volume, derived host. */
  predicate Authorizable(a: Attachment) {
    a.finalizer && a.volumeMatches && a.host == HostNqn(a.node)
  }

  /** Delete by name: finalizers turn it into a deletion mark, otherwise the object goes. */
  function DeleteByName(slot: Option<Attachment>): Option<Attachment> {
    if slot.None? then None
    else if slot.value.finalizer then Some(slot.value.(deleting := true))
    else None
  }

  /** A merge patch clearing the finalizers of whatever object has the name. */
  function ClearFinalizer(slot: Option<Attachment>): Option<Attachment> {
    if slot.None? || slot.value.deleting then None
    else Some(slot.value.(finalizer := false))
  }

  /** The status merge patch: only the fields that differ from `base` are written. */
  function PatchedStatus(current: Attachment, base: Attachment, observed: Option<nat>, ready: bool): Attachment {
    current.(observed := if base.observed != observed then observed else current.observed,
             ready := if base.ready != ready then ready else current.ready)
  }

  // ---------------------------------------------------------------- agent

  /** The host set the goal asks for (reconcileAttachmentAccess computes desiredHost). */
  function Wanted(goal: Goal): set<HostNqn> {
    if goal.Access? && goal.attachment.Some? && !goal.attachment.value.deleting && Authorizable(goal.attachment.value)
    then {goal.attachment.value.host}
    else {}
  }

  /** Where the agent goes after a failed backend call. */
  function AfterFailure(goal: Goal): AgentPc {
    if goal.Access? && goal.attachment.Some? && !goal.attachment.value.deleting
    then GetStatus(goal.attachment.value, false)
    else Idle
  }

  /** Where the agent goes once the host set is exactly the wanted one. */
  function AfterSwitch(goal: Goal): AgentPc {
    if goal.Teardown? then DropTarget
    else if goal.attachment.None? then Idle
    else
      var a := goal.attachment.value;
      if a.deleting then (if a.finalizer then Strip(a) else Idle)
      else GetStatus(a, Authorizable(a))
  }

  /** ReadDir / nvmf_get_subsystems, then either done or on to revocation; the read may fail. */
  ghost predicate Inspects(s: State, s': State, goal: Goal) {
    || s' == s.(agent := AfterFailure(goal))
    || if !s.target.present then s' == s.(agent := AfterFailure(goal))
    else if s.target.hosts == Wanted(goal) then
      // The kernel form also restores a lost port link here.
      s' == s.(agent := Report(goal), target := s.target.(linked := s.backend.Kernel? || s.target.linked))
    else s' == s.(agent := if s.backend.Kernel? then Disconnect(goal, s.target.hosts) else Revoke(goal, s.target.hosts))
  }

  /** One call of the host switch; `ok` is what it reports, `applied` what it did. */
  ghost predicate Switches(s: State, s': State, call: SwitchCall, ok: bool, applied: bool) {
    && (ok ==> applied)
    && match call
       case Unlink =>
         && s.agent.Disconnect?
         && s' == s.(agent := if ok then Revoke(s.agent.goal, s.agent.stale) else AfterFailure(s.agent.goal),
                     target := if applied then s.target.(linked := false) else s.target)
       case RemoveHost(host) =>
         && s.agent.Revoke? && host in s.agent.stale
         && s' == s.(agent := if ok then Revoke(s.agent.goal, s.agent.stale - {host}) else AfterFailure(s.agent.goal),
                     target := if applied then s.target.(hosts := s.target.hosts - {host}) else s.target)
       case RevocationDone =>
         && s.agent.Revoke? && s.agent.stale == {}
         && s' == s.(agent := Grant(s.agent.goal))
       case AddHost =>
         && s.agent.Grant?
         && s' == s.(agent := if !ok then AfterFailure(s.agent.goal)
                              else if s.backend.Kernel? then Reconnect(s.agent.goal) else Report(s.agent.goal),
                     target := if applied then s.target.(hosts := s.target.hosts + Wanted(s.agent.goal)) else s.target)
       case Relink =>
         && s.agent.Reconnect?
         && s' == s.(agent := if ok then Report(s.agent.goal) else AfterFailure(s.agent.goal),
                     target := if applied then s.target.(linked := true) else s.target)
  }

  /** The API calls that follow a finished or failed switch. */
  ghost predicate Reports(s: State, s': State, call: ReportCall) {
    match call
    case Outcome =>
      s.agent.Report? && s' == s.(agent := AfterSwitch(s.agent.goal))
    case StripFinalizer =>
      s.agent.Strip? && s' == s.(agent := Idle, slot := ClearFinalizer(s.slot))
    case ReadStatus =>
      && s.agent.GetStatus?
      && s' == s.(agent := if s.slot.None? then Idle else PatchStatus(s.agent.record, s.agent.granted, s.slot.value))
    case WriteStatus =>
      && s.agent.PatchStatus?
      && s' == s.(agent := Idle,
                  slot := if s.slot.None? then None
                          else Some(PatchedStatus(s.slot.value, s.agent.base,
                                                  if s.agent.granted then Some(s.agent.record.id) else None,
                                                  s.agent.granted)))
  }

  /** ExportVolume: both forms create the target without hosts; SPDK may drop it first. */
  ghost predicate Exports(s: State, s': State, call: ExportCall) {
    && s.agent.Exporting?
    && match call
       case CreateTarget => s' == s.(target := if s.target.present then s.target else Target(true, {}, false))
       case ReplaceTarget => s.backend.Spdk? && s' == s.(target := Target(false, {}, false))
       case SetLink(up) => s.target.present && s' == s.(target := s.target.(linked := up))
       case ExportDone => s' == s.(agent := Idle)
  }

  /** Partition deletion: unexport, release the attachment record, let the partition object go. */
  ghost predicate Releases(s: State, s': State, call: ReleaseCall) {
    match call
    case DeleteTarget =>
      s.agent.DropTarget? && s' == s.(agent := ReleaseGet, target := Target(false, {}, false))
    case ReleaseRead =>
      && s.agent.ReleaseGet?
      && s' == s.(agent := if s.slot.None? then Finish
                           else if !s.slot.value.deleting then ReleaseDelete
                           else if s.slot.value.finalizer then ReleaseStrip
                           else Finish)
    case ReleaseMark =>
      s.agent.ReleaseDelete? && s' == s.(agent := ReleaseReget, slot := DeleteByName(s.slot))
    case ReleaseReread =>
      && s.agent.ReleaseReget?
      && s' == s.(agent := if s.slot.Some? && s.slot.value.finalizer then ReleaseStrip else Finish)
    case ReleaseClear =>
      s.agent.ReleaseStrip? && s' == s.(agent := Finish, slot := ClearFinalizer(s.slot))
    case RemovePartition =>
      s.agent.Finish? && s' == s.(agent := Idle, partitionGone := true)
  }

  ghost predicate AgentNext(s: State, s': State, step: AgentStep) {
    match step
    case Start => s.agent.Idle? && !s.partitionDeleting && s' == s.(agent := Fetch)
    case StartExport => s.agent.Idle? && !s.partitionDeleting && s' == s.(agent := Exporting)
    case StartDeletion =>
      && s.agent.Idle? && s.partitionDeleting && !s.partitionGone
      && s' == s.(agent := if !s.target.present then ReleaseGet
                           else if s.backend.Kernel? then Inspect(Teardown)
                           else DropTarget)
    case Crash => s' == s.(agent := Idle)
    case FetchAttachment => s.agent.Fetch? && s' == s.(agent := Inspect(Access(s.slot)))
    case InspectHosts => s.agent.Inspect? && Inspects(s, s', s.agent.goal)
    case Switch(call, ok, applied) => Switches(s, s', call, ok, applied)
    case ReportVia(call) => Reports(s, s', call)
    case ExportVia(call) => Exports(s, s', call)
    case ReleaseVia(call) => Releases(s, s', call)
  }

  // ---------------------------------------------------------------- CSI controller

  predicate InitialCall(pc: CsiPc) {
    pc.PublishFind? || pc.UnpublishFind?
  }

  /** ControllerPublishVolume after it has obtained `existing`. */
  function PublishDecision(existing: Attachment, node: string): CsiPc {
    if !existing.volumeMatches then Failed
    else if existing.deleting then PublishWaitDeleted(node)
    else if existing.node != node then
      if existing.forceDetach != Some(existing.node) then Failed else PublishForceDelete(node)
    else WaitReady(node, existing.id)
  }

  /** One poll of waitForAttachmentReady. */
  function ReadyPoll(slot: Option<Attachment>, node: string, id: nat): CsiPc {
    if slot.None? || slot.value.deleting then Failed
    else if slot.value.observed == Some(id) && slot.value.ready then Published(node, id)
    else WaitReady(node, id)
  }

  function WithCall(s: State, c: nat, pc: CsiPc): State {
    s.(calls := s.calls[c := pc])
  }

  ghost predicate CsiNext(s: State, s': State, c: nat, step: CsiStep) {
    match step
    case Begin(pc) => c !in s.calls && InitialCall(pc) && s' == WithCall(s, c, pc)
    case GiveUp => c in s.calls && s' == WithCall(s, c, Failed)
    case Advance =>
      && c in s.calls
      && match s.calls[c]
         case PublishFind(node) =>
           s' == WithCall(s, c, if s.partitionGone then Failed else PublishGet(node))
         case PublishGet(node) =>
           s' == WithCall(s, c, if s.slot.None? then PublishCreate(node) else PublishDecision(s.slot.value, node))
         case PublishCreate(node) =>
           if s.slot.Some? then s' == WithCall(s, c, PublishGet(node))
           else
             exists id: nat ::
               && id !in s.issued
               && s' == WithCall(s, c, WaitReady(node, id))
                        .(slot := Some(Attachment(id, true, node, HostNqn(node), true, false, None, None, false)),
                          issued := s.issued[id := node])
         case PublishForceDelete(node) =>
           s' == WithCall(s, c, PublishWaitDeleted(node)).(slot := DeleteByName(s.slot))
         case PublishWaitDeleted(node) =>
           s' == WithCall(s, c, if s.slot.None? then PublishGet(node) else PublishWaitDeleted(node))
         case WaitReady(node, id) =>
           s' == WithCall(s, c, ReadyPoll(s.slot, node, id))
         case UnpublishFind(target) =>
           // A partition that is gone counts as unpublished.
           s' == WithCall(s, c, if s.partitionGone then Unpublished(target) else UnpublishGet(target))
         case UnpublishGet(target) =>
           s' == WithCall(s, c,
             if s.slot.None? || (target.Some? && s.slot.value.node != target.value) then Unpublished(target)
             else UnpublishDelete(target))
         case UnpublishDelete(target) =>
           s' == WithCall(s, c, UnpublishWaitDeleted(target)).(slot := DeleteByName(s.slot))
         case UnpublishWaitDeleted(target) =>
           s' == WithCall(s, c, if s.slot.None? then Unpublished(target) else UnpublishWaitDeleted(target))
         case _ => false
  }

  // ---------------------------------------------------------------- runs

  /** Before the first export: no record, no target, everybody idle. */
  ghost predicate Init(s: State) {
    && s.slot.None? && s.issued == map[] && s.calls == map[]
    && s.target == Target(false, {}, false)
    && s.agent.Idle? && !s.partitionDeleting && !s.partitionGone
  }

  ghost predicate Next(s: State, s': State, step: Step) {
    match step
    case AgentActs(a) => AgentNext(s, s', a)
    case CsiActs(c, cs) => CsiNext(s, s', c, cs)
    case Annotate(value) =>
      s.slot.Some? && s' == s.(slot := Some(s.slot.value.(forceDetach := Some(value))))
    case ForeignCreate(a) =>
      // Another client creates an arbitrary record; the status subresource starts empty.
      && s.slot.None? && a.id !in s.issued && !a.deleting && a.observed.None? && !a.ready
      && s' == s.(slot := Some(a), issued := s.issued[a.id := a.node])
    case ForeignDelete => s' == s.(slot := DeleteByName(s.slot))
    case DeletePartition => s' == s.(partitionDeleting := true)
  }

  ghost predicate Steps(s: State, s': State) {
    exists step :: Next(s, s', step)
  }

  ghost predicate IsRun(run: seq<State>) {
    && |run| > 0
    && Init(run[0])
    && forall i :: 0 <= i < |run| - 1 ==> Steps(run[i], run[i + 1])
  }

  // ---------------------------------------------------------------- invariant

  /** The hosts the present record entitles: its own, while it holds the finalizer. */
  function Entitled(slot: Option<Attachment>): set<HostNqn> {
    if slot.Some? && Authorizable(slot.value) then {slot.value.host} else {}
  }

  /** The record in the API is the one the agent read, and cannot have vanished since. */
  ghost predicate Held(s: State, a: Attachment) {
    && s.slot.Some?
    && s.slot.value.id == a.id && s.slot.value.node == a.node && s.slot.value.host == a.host
    && s.slot.value.finalizer == a.finalizer && s.slot.value.volumeMatches == a.volumeMatches
    && (a.deleting ==> s.slot.value.deleting)
  }

  ghost predicate GoalHeld(s: State, goal: Goal) {
    goal.Access? && goal.attachment.Some? && goal.attachment.value.finalizer ==> Held(s, goal.attachment.value)
  }

  ghost predicate SlotInv(s: State) {
    s.slot.Some? ==>
      var a := s.slot.value;
      && a.id in s.issued && s.issued[a.id] == a.node
      && (a.ready ==> a.observed == Some(a.id) && Authorizable(a))
      && (a.deleting ==> a.finalizer)
  }

  ghost predicate TargetInv(s: State) {
    && (!s.target.present ==> s.target.hosts == {} && !s.target.linked)
    && s.target.hosts <= Entitled(s.slot)
    && (s.partitionGone ==> s.partitionDeleting && !s.target.present && s.agent.Idle?)
  }

  ghost predicate LinkDown(s: State) {
    s.backend.Kernel? ==> !s.target.linked
  }

  /** The partition is being deleted and its target is gone. */
  ghost predicate TornDown(s: State) {
    s.partitionDeleting && !s.target.present && s.target.hosts == {}
  }

  /** Tearing down happens only on deletion. */
  ghost predicate GoalFits(s: State, goal: Goal) {
    GoalHeld(s, goal) && (goal.Teardown? ==> s.partitionDeleting)
  }

  ghost predicate AgentInv(s: State) {
    match s.agent
    case Inspect(goal) => GoalFits(s, goal)
    case Disconnect(goal, stale) => GoalFits(s, goal) && s.target.present && s.target.hosts <= stale
    case Revoke(goal, stale) => GoalFits(s, goal) && s.target.present && s.target.hosts <= stale && LinkDown(s)
    case Grant(goal) => GoalFits(s, goal) && s.target.present && s.target.hosts == {} && LinkDown(s)
    case Reconnect(goal) => GoalFits(s, goal) && s.target.present && s.target.hosts == Wanted(goal) && LinkDown(s)
    case Report(goal) => GoalFits(s, goal) && s.target.present && s.target.hosts == Wanted(goal)
    case Strip(a) => a.deleting && a.finalizer && Held(s, a) && s.target.hosts == {}
    case GetStatus(a, granted) => granted ==> Authorizable(a) && Held(s, a) && s.target.hosts == {a.host}
    case PatchStatus(a, granted, base) =>
      && (granted ==> Authorizable(a) && Held(s, a) && s.target.hosts == {a.host})
      && (granted ==> s.slot.value.observed == base.observed && s.slot.value.ready == base.ready)
      && (s.slot.Some? && s.slot.value.ready ==> base.ready)
    case DropTarget => s.partitionDeleting
    case ReleaseGet => TornDown(s)
    case ReleaseDelete => TornDown(s)
    case ReleaseReget => TornDown(s) && (s.slot.Some? && s.slot.value.ready ==> s.slot.value.deleting)
    case ReleaseStrip => TornDown(s) && (s.slot.Some? && s.slot.value.ready ==> s.slot.value.deleting)
    case Finish => TornDown(s)
    case _ => true
  }

  ghost predicate CallsInv(s: State) {
    forall c :: c in s.calls && s.calls[c].WaitReady? ==>
      s.calls[c].id in s.issued && s.issued[s.calls[c].id] == s.calls[c].node
  }

  ghost predicate Inv(s: State) {
    SlotInv(s) && TargetInv(s) && AgentInv(s) && CallsInv(s)
  }

  lemma SwitchPreservesInv(s: State, s': State, call: SwitchCall, ok: bool, applied: bool)
    requires Inv(s) && Switches(s, s', call, ok, applied)
    ensures Inv(s')
  {
  }

  lemma ReportPreservesInv(s: State, s': State, call: ReportCall)
    requires Inv(s) && Reports(s, s', call)
    ensures Inv(s')
  {
  }

  lemma ExportPreservesInv(s: State, s': State, call: ExportCall)
    requires Inv(s) && Exports(s, s', call)
    ensures Inv(s')
  {
  }

  lemma ReleasePreservesInv(s: State, s': State, call: ReleaseCall)
    requires Inv(s) && Releases(s, s', call)
    ensures Inv(s')
  {
  }

  lemma InspectionPreservesInv(s: State, s': State)
    requires Inv(s) && s.agent.Inspect? && Inspects(s, s', s.agent.goal)
    ensures Inv(s')
  {
  }

  lemma StartPreservesInv(s: State, s': State, step: AgentStep)
    requires Inv(s) && AgentNext(s, s', step)
    requires step.Start? || step.StartExport? || step.StartDeletion? || step.Crash? || step.FetchAttachment?
    ensures Inv(s')
  {
  }

  lemma AgentPreservesInv(s: State, s': State, step: AgentStep)
    requires Inv(s) && AgentNext(s, s', step)
    ensures Inv(s')
  {
    match step
    case Switch(call, ok, applied) => SwitchPreservesInv(s, s', call, ok, applied);
    case ReportVia(call) => ReportPreservesInv(s, s', call);
    case ExportVia(call) => ExportPreservesInv(s, s', call);
    case ReleaseVia(call) => ReleasePreservesInv(s, s', call);
    case InspectHosts => InspectionPreservesInv(s, s');
    case _ => StartPreservesInv(s, s', step);
  }

  // What each kind of agent step leaves alone.

  lemma SwitchFrame(s: State, s': State, call: SwitchCall, ok: bool, applied: bool)
    requires Switches(s, s', call, ok, applied)
    ensures s' == s.(agent := s'.agent, target := s'.target)
  {
  }

  lemma ReportFrame(s: State, s': State, call: ReportCall)
    requires Reports(s, s', call)
    ensures s' == s.(agent := s'.agent, slot := s'.slot)
    ensures s'.slot.Some? ==> s.slot.Some? && s'.slot.value.id == s.slot.value.id && s'.slot.value.node == s.slot.value.node
    ensures s'.slot.Some? && call != WriteStatus ==> s'.slot.value.ready == s.slot.value.ready
  {
  }

  lemma ExportFrame(s: State, s': State, call: ExportCall)
    requires Exports(s, s', call)
    ensures s' == s.(agent := s'.agent, target := s'.target)
    ensures s.backend.Kernel? && s.target.present ==> s'.target.hosts == s.target.hosts
  {
  }

  lemma ReleaseFrame(s: State, s': State, call: ReleaseCall)
    requires Releases(s, s', call)
    ensures s' == s.(agent := s'.agent, slot := s'.slot, target := s'.target, partitionGone := s'.partitionGone)
    ensures s'.slot.Some? ==> s.slot.Some? && s'.slot.value.id == s.slot.value.id && s'.slot.value.node == s.slot.value.node
    ensures s'.slot.Some? ==> s'.slot.value.ready == s.slot.value.ready
    ensures s'.target.present ==> s'.target == s.target
  {
  }

  lemma OtherFrame(s: State, s': State, step: AgentStep)
    requires AgentNext(s, s', step) && !step.Switch? && !step.ReportVia? && !step.ExportVia? && !step.ReleaseVia?
    ensures s' == s.(agent := s'.agent, target := s'.target) && s'.target.hosts == s.target.hosts
  {
  }

  lemma AgentFrame(s: State, s': State, step: AgentStep)
    requires AgentNext(s, s', step)
    ensures s' == s.(agent := s'.agent, slot := s'.slot, target := s'.target, partitionGone := s'.partitionGone)
  {
    match step
    case Switch(call, ok, applied) => SwitchFrame(s, s', call, ok, applied);
    case ReportVia(call) => ReportFrame(s, s', call);
    case ExportVia(call) => ExportFrame(s, s', call);
    case ReleaseVia(call) => ReleaseFrame(s, s', call);
    case _ => OtherFrame(s, s', step);
  }

  /** Deleting by name, without any UID precondition, never breaks the invariant. */
  lemma DeletePreservesInv(s: State)
    requires Inv(s)
    ensures Inv(s.(slot := DeleteByName(s.slot)))
  {
  }

  lemma CreatePreservesInv(s: State, a: Attachment)
    requires Inv(s) && s.slot.None? && a.id !in s.issued && !a.deleting && a.observed.None? && !a.ready
    ensures Inv(s.(slot := Some(a), issued := s.issued[a.id := a.node]))
  {
  }

  lemma CallPreservesInv(s: State, c: nat, pc: CsiPc)
    requires Inv(s)
    requires pc.WaitReady? ==> pc.id in s.issued && s.issued[pc.id] == pc.node
    ensures Inv(WithCall(s, c, pc))
  {
  }

  /** A record as the API server creates it. */
  ghost predicate NewRecord(s: State, s': State) {
    && s.slot.None? && s'.slot.Some?
    && s'.slot.value.id !in s.issued && !s'.slot.value.deleting && s'.slot.value.observed.None? && !s'.slot.value.ready
    && s'.issued == s.issued[s'.slot.value.id := s'.slot.value.node]
  }

  /** A CSI call changes its own position and leaves, deletes or creates the record. */
  lemma CsiEffect(s: State, s': State, c: nat, step: CsiStep)
    requires CsiNext(s, s', c, step)
    ensures c in s'.calls && s'.calls == s.calls[c := s'.calls[c]]
    ensures s' == s.(slot := s'.slot, issued := s'.issued, calls := s'.calls)
    ensures NewRecord(s, s') || (s'.issued == s.issued && (s'.slot == s.slot || s'.slot == DeleteByName(s.slot)))
  {
  }

  lemma CsiWaitsForIssued(s: State, s': State, c: nat, step: CsiStep)
    requires SlotInv(s) && CallsInv(s) && CsiNext(s, s', c, step)
    ensures c in s'.calls
    ensures s'.calls[c].WaitReady? ==> s'.calls[c].id in s'.issued && s'.issued[s'.calls[c].id] == s'.calls[c].node
  {
  }

  lemma CsiPreservesInv(s: State, s': State, c: nat, step: CsiStep)
    requires Inv(s) && CsiNext(s, s', c, step)
    ensures Inv(s')
  {
    CsiEffect(s, s', c, step);
    CsiWaitsForIssued(s, s', c, step);
    var mid := s.(slot := s'.slot, issued := s'.issued);
    if NewRecord(s, s') {
      CreatePreservesInv(s, s'.slot.value);
    } else {
      DeletePreservesInv(s);
    }
    CallPreservesInv(mid, c, s'.calls[c]);
  }

  lemma StepPreservesInv(s: State, s': State, step: Step)
    requires Inv(s) && Next(s, s', step)
    ensures Inv(s')
  {
    match step
    case AgentActs(a) => AgentPreservesInv(s, s', a);
    case CsiActs(c, cs) => CsiPreservesInv(s, s', c, cs);
    case ForeignCreate(a) => CreatePreservesInv(s, a);
    case ForeignDelete => DeletePreservesInv(s);
    case Annotate(value) => AnnotationPreservesInv(s, value);
    case DeletePartition => DeletionMarkPreservesInv(s);
  }

  lemma AnnotationPreservesInv(s: State, value: string)
    requires Inv(s) && s.slot.Some?
    ensures Inv(s.(slot := Some(s.slot.value.(forceDetach := Some(value)))))
  {
  }

  lemma DeletionMarkPreservesInv(s: State)
    requires Inv(s)
    ensures Inv(s.(partitionDeleting := true))
  {
  }

  lemma {:induction false} RunKeepsInv(run: seq<State>, i: nat)
    requires IsRun(run) && i < |run|
    ensures Inv(run[i])
  {
    if i > 0 {
      RunKeepsInv(run, i - 1);
      assert Steps(run[i - 1], run[(i - 1) + 1]);
      var step :| Next(run[i - 1], run[i], step);
      StepPreservesInv(run[i - 1], run[i], step);
    }
  }

  // ---------------------------------------------------------------- theorems

  /** In every reachable state the target authorizes at most one host, and that host is
      the derived identity of the one existing record, which still holds its finalizer. */
  lemma SingleWriter(run: seq<State>, i: nat)
    requires IsRun(run) && i < |run|
    ensures |run[i].target.hosts| <= 1
    ensures forall h :: h in run[i].target.hosts ==>
              && run[i].slot.Some?
              && run[i].slot.value.finalizer && run[i].slot.value.volumeMatches
              && h == run[i].slot.value.host == HostNqn(run[i].slot.value.node)
  {
    RunKeepsInv(run, i);
    var hosts := run[i].target.hosts;
    if h :| h in hosts {
      assert hosts == {h};
    }
  }

  /** The step taken at position `i`, from a state satisfying the invariant. */
  lemma StepAt(run: seq<State>, i: nat) returns (step: Step)
    requires IsRun(run) && i + 1 < |run|
    ensures Inv(run[i]) && Next(run[i], run[i + 1], step)
  {
    RunKeepsInv(run, i);
    assert Steps(run[i], run[i + 1]);
    step :| Next(run[i], run[i + 1], step);
  }

  lemma SwitchMovesUnlinked(s: State, s': State, call: SwitchCall, ok: bool, applied: bool)
    requires AgentInv(s) && Switches(s, s', call, ok, applied) && s.backend.Kernel? && s.target.hosts != s'.target.hosts
    ensures !s.target.linked && !s'.target.linked
  {
  }

  lemma KernelHostsMoveUnlinked(s: State, s': State, step: Step)
    requires AgentInv(s) && Next(s, s', step)
    requires s.backend.Kernel? && s.target.present && s'.target.present
    requires s.target.hosts != s'.target.hosts
    ensures !s.target.linked && !s'.target.linked
  {
    match step {
      case AgentActs(a) =>
        match a {
          case Switch(call, ok, applied) => SwitchMovesUnlinked(s, s', call, ok, applied);
          case ReportVia(call) => ReportFrame(s, s', call);
          case ExportVia(call) => ExportFrame(s, s', call);
          case ReleaseVia(call) => ReleaseFrame(s, s', call);
          case _ => OtherFrame(s, s', a);
        }
      case CsiActs(c, cs) => CsiEffect(s, s', c, cs);
      case _ =>
    }
  }

  /** A kernel target changes its host set only while its port link is down. */
  lemma HostsChangeOnlyWhileDisconnected(run: seq<State>, i: nat)
    requires IsRun(run) && i + 1 < |run|
    requires run[i].backend.Kernel? && run[i].target.present && run[i + 1].target.present
    requires run[i].target.hosts != run[i + 1].target.hosts
    ensures !run[i].target.linked && !run[i + 1].target.linked
  {
    var step := StepAt(run, i);
    KernelHostsMoveUnlinked(run[i], run[i + 1], step);
  }

  /** The step at which call `c` returns success for `node` with attachment `id`. */
  ghost predicate PublishSucceeds(run: seq<State>, i: nat, c: nat, node: string, id: nat) {
    && i + 1 < |run|
    && c in run[i].calls && run[i].calls[c] == WaitReady(node, id)
    && c in run[i + 1].calls && run[i + 1].calls[c] == Published(node, id)
  }

  /** The target authorized exactly the host of attachment lifetime `id`. */
  ghost predicate GrantedTo(s: State, node: string, id: nat) {
    && s.slot.Some? && s.slot.value.id == id && s.slot.value.node == node
    && s.target.hosts == {HostNqn(node)}
  }

  /** The agent never creates a record, keeps its identity, and reports only in its status write. */
  lemma AgentKeepsRecord(s: State, s': State, step: AgentStep)
    requires AgentNext(s, s', step) && s'.slot.Some?
    ensures s.slot.Some? && s'.slot.value.id == s.slot.value.id && s'.slot.value.node == s.slot.value.node
    ensures step != ReportVia(WriteStatus) ==> s'.slot.value.ready == s.slot.value.ready
  {
    match step
    case Switch(call, ok, applied) => SwitchFrame(s, s', call, ok, applied);
    case ReportVia(call) => ReportFrame(s, s', call);
    case ExportVia(call) => ExportFrame(s, s', call);
    case ReleaseVia(call) => ReleaseFrame(s, s', call);
    case _ => OtherFrame(s, s', step);
  }

  lemma StepKeepsRecord(s: State, s': State, step: Step)
    requires Next(s, s', step)
    requires s.slot.Some? && s'.slot.Some?
    ensures s'.slot.value.id == s.slot.value.id && s'.slot.value.node == s.slot.value.node
  {
    match step
    case AgentActs(a) => AgentKeepsRecord(s, s', a);
    case CsiActs(c, cs) => CsiEffect(s, s', c, cs);
    case _ =>
  }

  lemma OnlyStatusWriteMakesReady(s: State, s': State, step: Step)
    requires Next(s, s', step) && step != AgentActs(ReportVia(WriteStatus))
    requires s'.slot.Some? && s'.slot.value.ready
    ensures s.slot.Some? && s.slot.value.ready && s.slot.value.id == s'.slot.value.id && s.slot.value.node == s'.slot.value.node
  {
    match step
    case AgentActs(a) => AgentKeepsRecord(s, s', a);
    case CsiActs(c, cs) => CsiEffect(s, s', c, cs);
    case _ =>
  }

  lemma ReadyComesFromGrant(s: State, s': State, step: Step)
    requires Inv(s) && Next(s, s', step)
    requires s'.slot.Some? && s'.slot.value.ready
    ensures s.slot.Some? && s.slot.value.id == s'.slot.value.id && s.slot.value.node == s'.slot.value.node
    ensures s.slot.value.ready || GrantedTo(s, s.slot.value.node, s.slot.value.id)
  {
    if step != AgentActs(ReportVia(WriteStatus)) {
      OnlyStatusWriteMakesReady(s, s', step);
    } else {
      assert Reports(s, s', WriteStatus);
    }
  }

  /** The record is the same one, and ready already or granted, one state earlier. */
  ghost predicate ReadyOrGranted(s: State, a: Attachment) {
    s.slot.Some? && s.slot.value.id == a.id && s.slot.value.node == a.node && (s.slot.value.ready || GrantedTo(s, a.node, a.id))
  }

  lemma ReadyOneEarlier(run: seq<State>, i: nat)
    requires IsRun(run) && i < |run| && run[i].slot.Some? && run[i].slot.value.ready
    ensures i > 0 && ReadyOrGranted(run[i - 1], run[i].slot.value)
  {
    assert i > 0;
    var step := StepAt(run, i - 1);
    ReadyComesFromGrant(run[i - 1], run[i], step);
  }

  predicate IsReady(s: State) {
    s.slot.Some? && s.slot.value.ready
  }

  /** Going back from a ready record, the grant is found before the beginning. */
  lemma {:induction false} TracedBack(run: seq<State>, i: nat) returns (k: nat)
    requires i < |run| && IsReady(run[i]) && !IsReady(run[0])
    requires forall j :: 0 < j <= i && IsReady(run[j]) ==> ReadyOrGranted(run[j - 1], run[j].slot.value)
    ensures k < i && GrantedTo(run[k], run[i].slot.value.node, run[i].slot.value.id)
  {
    assert ReadyOrGranted(run[i - 1], run[i].slot.value);
    if IsReady(run[i - 1]) {
      k := TracedBack(run, i - 1);
    } else {
      k := i - 1;
    }
  }

  lemma ReadyWasGranted(run: seq<State>, i: nat) returns (k: nat)
    requires IsRun(run) && i < |run| && IsReady(run[i])
    ensures k < i && GrantedTo(run[k], run[i].slot.value.node, run[i].slot.value.id)
  {
    forall j | 0 < j <= i && IsReady(run[j])
      ensures ReadyOrGranted(run[j - 1], run[j].slot.value)
    {
      ReadyOneEarlier(run, j);
    }
    k := TracedBack(run, i);
  }

  lemma CallMovesItself(s: State, s': State, step: Step, c: nat)
    requires Next(s, s', step) && c in s.calls && c in s'.calls && s.calls[c] != s'.calls[c]
    ensures step.CsiActs? && step.call == c
  {
    match step
    case AgentActs(a) => AgentFrame(s, s', a);
    case CsiActs(d, cs) => CsiEffect(s, s', d, cs);
    case _ =>
  }

  lemma PublishStep(s: State, s': State, step: Step, c: nat, node: string, id: nat)
    requires Inv(s) && Next(s, s', step)
    requires c in s.calls && s.calls[c] == WaitReady(node, id)
    requires c in s'.calls && s'.calls[c] == Published(node, id)
    ensures s.slot.Some? && s.slot.value.id == id && s.slot.value.node == node
    ensures s.slot.value.ready && !s.slot.value.deleting && s.slot.value.finalizer
    ensures s.target.hosts <= {HostNqn(node)}
  {
    CallMovesItself(s, s', step, c);
    assert CsiNext(s, s', c, step.csiStep);
    assert ReadyPoll(s.slot, node, id) == Published(node, id);
  }

  /** A publish returns only on a ready observation of its own attachment lifetime: the
      record present is the one it waits for, not being deleted, nobody else is authorized,
      and at an earlier step the target authorized exactly this node for this lifetime. */
  lemma PublishSeesOwnLifetime(run: seq<State>, i: nat, c: nat, node: string, id: nat)
    requires IsRun(run) && PublishSucceeds(run, i, c, node, id)
    ensures run[i].slot.Some? && run[i].slot.value.id == id && run[i].slot.value.node == node
    ensures !run[i].slot.value.deleting && run[i].slot.value.finalizer
    ensures run[i].target.hosts <= {HostNqn(node)}
    ensures exists k: nat :: k < i && GrantedTo(run[k], node, id)
  {
    var step := StepAt(run, i);
    PublishStep(run[i], run[i + 1], step, c, node, id);
    var k := ReadyWasGranted(run, i);
  }

  lemma RecordKeptAt(run: seq<State>, i: nat)
    requires IsRun(run) && i + 1 < |run| && run[i].slot.Some? && run[i + 1].slot.Some?
    ensures run[i + 1].slot.value.node == run[i].slot.value.node
  {
    var step := StepAt(run, i);
    StepKeepsRecord(run[i], run[i + 1], step);
  }

  /** A record can change its node only by disappearing in between. */
  lemma {:induction false} NodeChangeLeavesGap(run: seq<State>, i: nat, j: nat) returns (k: nat)
    requires IsRun(run) && i <= j < |run|
    requires run[i].slot.Some? && run[j].slot.Some? && run[i].slot.value.node != run[j].slot.value.node
    ensures i < k < j && run[k].slot.None?
    decreases j - i
  {
    if run[i + 1].slot.None? {
      k := i + 1;
    } else {
      RecordKeptAt(run, i);
      k := NodeChangeLeavesGap(run, i + 1, j);
    }
  }

  lemma NoRecordMeansNobody(run: seq<State>, k: nat)
    requires IsRun(run) && k < |run| && run[k].slot.None?
    ensures run[k].target.hosts == {}
  {
    RunKeepsInv(run, k);
  }

  /** Between successful publishes to different nodes the target authorized nobody. */
  lemma FencedBetweenPublishes(run: seq<State>, i: nat, c: nat, node: string, id: nat,
                               j: nat, d: nat, node': string, id': nat)
    requires IsRun(run) && i <= j
    requires PublishSucceeds(run, i, c, node, id) && PublishSucceeds(run, j, d, node', id')
    requires node != node'
    ensures exists k: nat :: i < k < j && run[k].slot.None? && run[k].target.hosts == {}
  {
    PublishSeesOwnLifetime(run, i, c, node, id);
    PublishSeesOwnLifetime(run, j, d, node', id');
    var k := NodeChangeLeavesGap(run, i, j);
    NoRecordMeansNobody(run, k);
  }

  /** Where an unpublish can succeed: the partition is gone, or its record is, or names another node. */
  predicate Unpublishing(pc: CsiPc, target: Option<string>) {
    pc == UnpublishFind(target) || pc == UnpublishGet(target) || pc == UnpublishWaitDeleted(target)
  }

  lemma UnpublishStep(s: State, s': State, step: Step, c: nat, target: Option<string>)
    requires Inv(s) && Next(s, s', step)
    requires c in s.calls && Unpublishing(s.calls[c], target)
    requires c in s'.calls && s'.calls[c] == Unpublished(target)
    ensures target.None? ==> s.target.hosts == {}
    ensures target.Some? ==> HostNqn(target.value) !in s.target.hosts
  {
    CallMovesItself(s, s', step, c);
    assert CsiNext(s, s', c, step.csiStep);
    assert s.partitionGone || s.slot.None? || (target.Some? && s.slot.value.node != target.value);
  }

  /** When ControllerUnpublishVolume reports success the named node is not authorized;
      with no node given, nobody is. */
  lemma UnpublishRevokes(run: seq<State>, i: nat, c: nat, target: Option<string>)
    requires IsRun(run) && i + 1 < |run|
    requires c in run[i].calls && Unpublishing(run[i].calls[c], target)
    requires c in run[i + 1].calls && run[i + 1].calls[c] == Unpublished(target)
    ensures target.None? ==> run[i].target.hosts == {}
    ensures target.Some? ==> HostNqn(target.value) !in run[i].target.hosts
  {
    var step := StepAt(run, i);
    UnpublishStep(run[i], run[i + 1], step, c, target);
  }
}
