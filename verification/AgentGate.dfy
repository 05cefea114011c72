/**
 The agent's gate for provisioning, beside the scheduler.

 An agent reads a partition, accepts it when it is placed and either carries a recorded
 identity or passes the fingerprint check, and then records identities by name: the writes land
 on whatever object has the name by then.  A finalizer patch replaces the agent's copy by
 its response, after which the gate is asked again.  The scheduler, users and other writers
 are those of the reservation machine.  `stamped`, `legacy` and `misrecorded` are history:
 the placements the manager ever stamped, the objects that carried an identity from the
 beginning, and the objects that got one from an agent working on another object.
 */
module AgentGate {
  import opened Options
  import opened Bytes
  import opened PlacementAuth
  import opened Reservation
  import opened Runs
  import Capacity

  /** A snapshot of an object, with whether its status carried an identity. */
  datatype Snapshot = Snapshot(copy: Partition, identified: bool)

  datatype Agent = Has(read: Snapshot) | Passed(read: Snapshot)

  datatype Gate = Gate(
    manager: State,
    identified: set<GoString>,
    agents: map<nat, Agent>,
    stamped: set<(GoString, Placement)>,
    legacy: set<GoString>,
    misrecorded: set<GoString>)

  datatype GateStep =
    | Manage(step: Step)
    | AgentRead(a: nat, name: string)
    | AgentVerify(a: nat)
    | AgentRecord(a: nat)
    | AgentRefresh(a: nat)
    | AgentStop(a: nat)

  /** verifyProvisioningAuthorization, as far as the object itself decides it. */
  predicate Accepts(r: Snapshot) {
    r.copy.placement.Some? && (r.identified || IsAuthorized(r.copy))
  }

  function Look(g: Gate, k: nat): Snapshot
    requires k < |g.manager.partitions|
  {
    Snapshot(g.manager.partitions[k], g.manager.partitions[k].uid in g.identified)
  }

  /** The stamp a step of the manager makes, if it makes one. */
  function StampOf(s: State, step: Step): set<(GoString, Placement)> {
    if step.StampStatus? && step.w in s.workers && s.workers[step.w].Admitted?
    then {(s.workers[step.w].copy.uid, s.workers[step.w].placement)} else {}
  }

  ghost predicate Records(g: Gate, g': Gate, a: nat) {
    && a in g.agents && g.agents[a].Passed?
    && var copy := g.agents[a].read.copy;
       var found := Find(g.manager.partitions, copy.name);
       if found.None? then g' == g.(agents := g.agents - {a})
       else
         var uid := g.manager.partitions[found.value].uid;
         g' == g.(manager := Write(g.manager, found.value, g.manager.partitions[found.value]),
                  identified := g.identified + {uid},
                  misrecorded := if uid == copy.uid then g.misrecorded else g.misrecorded + {uid})
  }

  ghost predicate GateNext(g: Gate, g': Gate, step: GateStep) {
    match step
    case Manage(step) =>
      && Next(g.manager, g'.manager, step)
      && g' == g.(manager := g'.manager, stamped := g.stamped + StampOf(g.manager, step))
    case AgentRead(a, name) =>
      && a !in g.agents && Find(g.manager.partitions, name).Some?
      && g' == g.(agents := g.agents[a := Has(Look(g, Find(g.manager.partitions, name).value))])
    case AgentVerify(a) =>
      && a in g.agents && g.agents[a].Has?
      && g' == g.(agents := if Accepts(g.agents[a].read) then g.agents[a := Passed(g.agents[a].read)] else g.agents - {a})
    case AgentRecord(a) => Records(g, g', a)
    case AgentRefresh(a) =>
      && a in g.agents && g.agents[a].Passed?
      && var found := Find(g.manager.partitions, g.agents[a].read.copy.name);
         g' == g.(agents := if found.None? then g.agents - {a} else g.agents[a := Has(Look(g, found.value))])
    case AgentStop(a) => g' == g.(agents := g.agents - {a})
  }

  /** Objects of older releases may carry an identity without a fingerprint. */
  ghost predicate GateInit(g: Gate) {
    && Init(g.manager) && g.agents == map[] && g.stamped == {} && g.misrecorded == {}
    && g.identified == g.legacy && g.legacy <= g.manager.uids
  }

  ghost predicate IsGateRun(run: seq<Gate>, steps: seq<GateStep>) {
    |run| == |steps| + 1 && GateInit(run[0]) && forall i :: 0 <= i < |steps| ==> GateNext(run[i], run[i + 1], steps[i])
  }

  // ---------------------------------------------------------------- invariant

  /** The manager stamped exactly this placement for exactly this object, or the object is excused. */
  predicate Vouched(g: Gate, uid: GoString, pl: Placement) {
    (uid, pl) in g.stamped || uid in g.legacy || uid in g.misrecorded
  }

  ghost predicate FingerprintFrom(g: Gate, p: Partition) {
    exists u, pl :: (u, pl) in g.stamped && p.fingerprint == FingerprintOf(u, pl.node, pl.serial, Some(pl.claim))
  }

  ghost predicate FingerprintsStamped(g: Gate) {
    forall p :: p in g.manager.partitions && p.fingerprint.Some? ==> FingerprintFrom(g, p)
  }

  /** An object with an identity is excused, or placed as stamped. */
  ghost predicate IdentitiesVouched(g: Gate) {
    && g.identified <= g.manager.uids
    && forall p :: p in g.manager.partitions && p.uid in g.identified ==>
         p.uid in g.legacy || p.uid in g.misrecorded || (p.placement.Some? && (p.uid, p.placement.value) in g.stamped)
  }

  /** An agent's copy agrees with the object for as long as that exists. */
  ghost predicate CopyHolds(g: Gate, r: Snapshot) {
    && r.copy.uid in g.manager.uids
    && (r.copy.placement.Some? ==> PlacedAt(g.manager, r.copy.uid, r.copy.placement.value))
    && (r.copy.fingerprint.Some? ==> FingerprintFrom(g, r.copy))
    && (r.identified && r.copy.placement.Some? ==> Vouched(g, r.copy.uid, r.copy.placement.value))
  }

  ghost predicate AgentsHold(g: Gate) {
    && (forall a :: a in g.agents ==> CopyHolds(g, g.agents[a].read))
    && (forall a :: a in g.agents && g.agents[a].Passed? ==>
          g.agents[a].read.copy.placement.Some? && Vouched(g, g.agents[a].read.copy.uid, g.agents[a].read.copy.placement.value))
  }

  ghost predicate GateInv(g: Gate) {
    Basic(g.manager) && FingerprintsStamped(g) && IdentitiesVouched(g) && AgentsHold(g)
  }

  /** A fingerprint that matches the object was stamped for it. */
  lemma AuthorizedIsStamped(g: Gate, p: Partition)
    requires IsAuthorized(p) && FingerprintFrom(g, p)
    ensures (p.uid, p.placement.value) in g.stamped
  {
    var u, pl :| (u, pl) in g.stamped && p.fingerprint == FingerprintOf(u, pl.node, pl.serial, Some(pl.claim));
    var own := p.placement.value;
    FingerprintBindsPlacement(p.uid, own.node, own.serial, Some(own.claim), u, pl.node, pl.serial, Some(pl.claim));
    assert own == pl;
  }

  lemma AcceptedIsVouched(g: Gate, r: Snapshot)
    requires CopyHolds(g, r) && Accepts(r)
    ensures Vouched(g, r.copy.uid, r.copy.placement.value)
  {
    if !r.identified {
      AuthorizedIsStamped(g, r.copy);
    }
  }

  lemma LookHolds(g: Gate, k: nat)
    requires GateInv(g) && k < |g.manager.partitions|
    ensures CopyHolds(g, Look(g, k))
  {
    var p := g.manager.partitions[k];
    assert p in g.manager.partitions;
    if p.placement.Some? {
      forall q | q in g.manager.partitions && q.uid == p.uid
        ensures q == p
      {
        var j :| 0 <= j < |g.manager.partitions| && g.manager.partitions[j] == q;
        assert j == k;
      }
    }
  }

  // ---------------------------------------------------------------- preservation

  predicate Continuation(s: State, q: Partition, p: Partition) {
    && q.uid == p.uid && q.name == p.name && (q.placement.Some? ==> q.placement == p.placement)
    && (p == q || p.version == s.clock)
  }

  /** An object of the next state is new or continues one with its name and placement. */
  ghost predicate Continues(s: State, p: Partition) {
    p.uid !in s.uids || exists q :: q in s.partitions && Continuation(s, q, p)
  }

  lemma WriteContinues(s: State, k: nat, w: Partition, p: Partition)
    requires k < |s.partitions| && w.uid == s.partitions[k].uid && w.name == s.partitions[k].name
    requires s.partitions[k].placement.Some? ==> w.placement == s.partitions[k].placement
    requires p in Write(s, k, w).partitions
    ensures Continues(s, p)
  {
    var i :| 0 <= i < |s.partitions| && Write(s, k, w).partitions[i] == p;
    assert s.partitions[i] in s.partitions;
  }

  lemma StampContinues(s: State, s': State, w: nat, p: Partition)
    requires Stamps(s, s', w) && p in s'.partitions
    ensures Continues(s, p)
  {
    var Admitted(job, copy, pl) := s.workers[w];
    var found := Find(s.partitions, job.name);
    if found.Some? {
      WriteContinues(s, found.value, StampOn(s.partitions[found.value], copy, pl), p);
    }
  }

  lemma UpdateContinues(s: State, s': State, w: nat, retry: bool, p: Partition)
    requires Updates(s, s', w, retry) && p in s'.partitions
    ensures Continues(s, p)
  {
    var Stamped(job, copy, pl) := s.workers[w];
    var found := Find(s.partitions, job.name);
    if s'.partitions != s.partitions {
      WriteContinues(s, found.value, Assigned(s.partitions[found.value], pl), p);
    }
  }

  lemma StepContinues(s: State, s': State, step: Step, p: Partition)
    requires Next(s, s', step) && p in s'.partitions
    ensures Continues(s, p)
  {
    assert Continuation(s, p, p);
    match step
    case StampStatus(w) => StampContinues(s, s', w, p);
    case UpdateSpec(w, retry) => UpdateContinues(s, s', w, retry, p);
    case MarkDeleted(k) => WriteContinues(s, k, s.partitions[k].(deleting := true), p);
    case TouchStatus(k) => WriteContinues(s, k, s.partitions[k], p);
    case Remove(k) =>
    case Create(_) =>
    case _ => assert s'.partitions == s.partitions;
  }

  lemma StepKeepsUids(s: State, s': State, step: Step)
    requires Next(s, s', step)
    ensures s.uids <= s'.uids
  {
    match step
    case StampStatus(w) =>
    case UpdateSpec(w, retry) =>
    case _ =>
  }

  lemma CopyKeepsHolding(g: Gate, g': Gate, step: Step, r: Snapshot)
    requires GateNext(g, g', Manage(step)) && CopyHolds(g, r)
    ensures CopyHolds(g', r)
  {
    StepKeepsUids(g.manager, g'.manager, step);
    if r.copy.placement.Some? {
      StepKeepsPlacement(g.manager, g'.manager, step, r.copy.uid, r.copy.placement.value);
    }
    if r.copy.fingerprint.Some? {
      var u, pl :| (u, pl) in g.stamped && r.copy.fingerprint == FingerprintOf(u, pl.node, pl.serial, Some(pl.claim));
      assert (u, pl) in g'.stamped;
    }
  }

  lemma ManageKeepsFingerprints(g: Gate, g': Gate, step: Step)
    requires GateNext(g, g', Manage(step)) && FingerprintsStamped(g)
    ensures FingerprintsStamped(g')
  {
    forall p | p in g'.manager.partitions && p.fingerprint.Some?
      ensures FingerprintFrom(g', p)
    {
      NewFingerprintIsStamped(g.manager, g'.manager, step, p);
      if q :| q in g.manager.partitions && q.fingerprint == p.fingerprint {
        assert FingerprintFrom(g, q);
        var u, pl :| (u, pl) in g.stamped && q.fingerprint == FingerprintOf(u, pl.node, pl.serial, Some(pl.claim));
        assert (u, pl) in g'.stamped;
      } else {
        var Admitted(_, copy, pl) := g.manager.workers[step.w];
        assert (copy.uid, pl) in g'.stamped;
      }
    }
  }

  lemma ManageKeepsIdentities(g: Gate, g': Gate, step: Step)
    requires GateNext(g, g', Manage(step)) && IdentitiesVouched(g)
    ensures IdentitiesVouched(g')
  {
    StepKeepsUids(g.manager, g'.manager, step);
    forall p | p in g'.manager.partitions && p.uid in g'.identified
      ensures p.uid in g'.legacy || p.uid in g'.misrecorded || (p.placement.Some? && (p.uid, p.placement.value) in g'.stamped)
    {
      StepContinues(g.manager, g'.manager, step, p);
      assert p.uid in g.manager.uids;
    }
  }

  lemma ManageKeepsInv(g: Gate, g': Gate, step: Step)
    requires GateInv(g) && GateNext(g, g', Manage(step))
    ensures GateInv(g')
  {
    StepKeepsBasic(g.manager, g'.manager, step);
    ManageKeepsFingerprints(g, g', step);
    ManageKeepsIdentities(g, g', step);
    forall a | a in g'.agents
      ensures CopyHolds(g', g'.agents[a].read)
    {
      CopyKeepsHolding(g, g', step, g.agents[a].read);
    }
  }

  lemma AgentChangeKeepsInv(g: Gate, a: nat, agent: Agent)
    requires GateInv(g) && CopyHolds(g, agent.read)
    requires agent.Passed? ==> agent.read.copy.placement.Some? && Vouched(g, agent.read.copy.uid, agent.read.copy.placement.value)
    ensures GateInv(g.(agents := g.agents[a := agent]))
  {
    var g' := g.(agents := g.agents[a := agent]);
    forall b | b in g'.agents
      ensures CopyHolds(g', g'.agents[b].read)
    {
      if b != a {
        assert CopyHolds(g, g.agents[b].read);
      }
    }
  }

  lemma AgentStopKeepsInv(g: Gate, a: nat)
    requires GateInv(g)
    ensures GateInv(g.(agents := g.agents - {a}))
  {
    var g' := g.(agents := g.agents - {a});
    forall b | b in g'.agents
      ensures CopyHolds(g', g'.agents[b].read)
    {
      assert CopyHolds(g, g.agents[b].read);
    }
  }

  lemma ReadKeepsInv(g: Gate, g': Gate, step: GateStep)
    requires GateInv(g) && GateNext(g, g', step) && (step.AgentRead? || step.AgentRefresh? || step.AgentStop? || step.AgentVerify?)
    ensures GateInv(g')
  {
    match step
    case AgentRead(a, name) =>
      var k := Find(g.manager.partitions, name).value;
      LookHolds(g, k);
      AgentChangeKeepsInv(g, a, Has(Look(g, k)));
    case AgentRefresh(a) =>
      AgentStopKeepsInv(g, a);
      var found := Find(g.manager.partitions, g.agents[a].read.copy.name);
      if found.Some? {
        LookHolds(g, found.value);
        AgentChangeKeepsInv(g, a, Has(Look(g, found.value)));
      }
    case AgentVerify(a) =>
      AgentStopKeepsInv(g, a);
      if Accepts(g.agents[a].read) {
        AcceptedIsVouched(g, g.agents[a].read);
        AgentChangeKeepsInv(g, a, Passed(g.agents[a].read));
      }
    case AgentStop(a) => AgentStopKeepsInv(g, a);
  }

  /** A status write that leaves the modelled fields alone is one of the manager machine's steps. */
  lemma RecordKeepsInv(g: Gate, g': Gate, a: nat)
    requires GateInv(g) && Records(g, g', a)
    ensures GateInv(g')
  {
    var copy := g.agents[a].read.copy;
    var found := Find(g.manager.partitions, copy.name);
    if found.Some? {
      var mid := g.(manager := g'.manager);
      assert GateNext(g, mid, Manage(TouchStatus(found.value)));
      ManageKeepsInv(g, mid, TouchStatus(found.value));
      RecordVouches(g, mid, g', a, found.value);
    }
  }

  lemma RecordVouches(g: Gate, mid: Gate, g': Gate, a: nat, k: nat)
    requires GateInv(g) && Records(g, g', a) && Find(g.manager.partitions, g.agents[a].read.copy.name) == Some(k)
    requires mid == g.(manager := g'.manager) && GateInv(mid)
    ensures GateInv(g')
  {
    var o := g.manager.partitions[k];
    assert o in g.manager.partitions;
    var copy := g.agents[a].read.copy;
    forall p | p in g'.manager.partitions && p.uid == o.uid
      ensures p.uid in g'.legacy || p.uid in g'.misrecorded || (p.placement.Some? && (p.uid, p.placement.value) in g'.stamped)
    {
      if o.uid == copy.uid {
        assert CopyHolds(mid, mid.agents[a].read);
      }
    }
    forall b | b in g'.agents
      ensures CopyHolds(g', g'.agents[b].read)
    {
      assert CopyHolds(mid, mid.agents[b].read);
    }
  }

  lemma GateStepKeepsInv(g: Gate, g': Gate, step: GateStep)
    requires GateInv(g) && GateNext(g, g', step)
    ensures GateInv(g')
  {
    match step
    case Manage(st) => ManageKeepsInv(g, g', st);
    case AgentRecord(a) => RecordKeepsInv(g, g', a);
    case _ => ReadKeepsInv(g, g', step);
  }

  lemma InitMeetsInv(g: Gate)
    requires GateInit(g)
    ensures GateInv(g)
  {
  }

  lemma {:induction false} GateRunKeepsInv(run: seq<Gate>, steps: seq<GateStep>, i: nat)
    requires IsGateRun(run, steps) && i < |run|
    ensures GateInv(run[i])
  {
    if i == 0 {
      InitMeetsInv(run[0]);
    } else {
      GateRunKeepsInv(run, steps, i - 1);
      assert GateNext(run[i - 1], run[(i - 1) + 1], steps[i - 1]);
      GateStepKeepsInv(run[i - 1], run[i], steps[i - 1]);
    }
  }

  // ---------------------------------------------------------------- theorems

  /** In every run, whatever has passed the gate was stamped for exactly its UID and placement,
      or carried an identity from an older release, or got one meant for another object. */
  lemma PassedIsVouched(run: seq<Gate>, steps: seq<GateStep>, i: nat, a: nat)
    requires IsGateRun(run, steps) && i < |run| && a in run[i].agents && run[i].agents[a].Passed?
    ensures run[i].agents[a].read.copy.placement.Some?
    ensures Vouched(run[i], run[i].agents[a].read.copy.uid, run[i].agents[a].read.copy.placement.value)
  {
    GateRunKeepsInv(run, steps, i);
  }

  /** The identity lands on the object that was read. */
  predicate FaithfulRecord(g: Gate, step: GateStep) {
    step.AgentRecord? && step.a in g.agents && Find(g.manager.partitions, g.agents[step.a].read.copy.name).Some? ==>
      g.manager.partitions[Find(g.manager.partitions, g.agents[step.a].read.copy.name).value].uid == g.agents[step.a].read.copy.uid
  }

  lemma {:induction false} NothingMisrecorded(run: seq<Gate>, steps: seq<GateStep>, i: nat)
    requires IsGateRun(run, steps) && i < |run|
    requires forall j :: 0 <= j < |steps| ==> FaithfulRecord(run[j], steps[j])
    ensures run[i].misrecorded == {} && run[i].legacy == run[0].legacy
  {
    if i > 0 {
      NothingMisrecorded(run, steps, i - 1);
      assert GateNext(run[i - 1], run[(i - 1) + 1], steps[i - 1]);
      assert FaithfulRecord(run[i - 1], steps[i - 1]);
    }
  }

  /** So without objects of older releases and without names reused under a record, everything
      the agents provision was stamped for exactly its UID, node, serial number and claim. */
  lemma PassedIsStamped(run: seq<Gate>, steps: seq<GateStep>, i: nat, a: nat)
    requires IsGateRun(run, steps) && i < |run| && a in run[i].agents && run[i].agents[a].Passed?
    requires run[0].legacy == {} && forall j :: 0 <= j < |steps| ==> FaithfulRecord(run[j], steps[j])
    ensures run[i].agents[a].read.copy.placement.Some?
    ensures (run[i].agents[a].read.copy.uid, run[i].agents[a].read.copy.placement.value) in run[i].stamped
  {
    PassedIsVouched(run, steps, i, a);
    NothingMisrecorded(run, steps, i);
  }

  // ---------------------------------------------------------------- an unstamped pass

  // An agent has passed an object of an older release named "a".  The object is deleted; the
  // scheduler is about to stamp a second "a" when that is deleted too.  The agent records the first
  // object's identity in a third "a", unplaced as yet; the stamp and the placement follow.
  const SLIP_JOB := Job("a", "d", [7], Capacity.UNIT)
  const SLIP_DEVICE := Device([7], [8], ClaimRef([9], [9], [9]), true)
  const SLIP_PLACEMENT := PlacementOn(SLIP_DEVICE)
  const OLD := Partition("a", [1], Capacity.UNIT, 0, 1, false, Some(SLIP_PLACEMENT), None, None)
  const SECOND := Partition("a", [2], Capacity.UNIT, 1, 1, false, None, None, None)
  const THIRD := Partition("a", [3], Capacity.UNIT, 2, 1, false, None, None, None)
  const SLIP_RECORDED := THIRD.(version := 3)
  const SLIP_STAMPED := StampOn(SLIP_RECORDED, SECOND, SLIP_PLACEMENT).(version := 4)
  const SLIP_PLACED := Assigned(SLIP_STAMPED, SLIP_PLACEMENT).(version := 5)

  function SlipManager(ps: seq<Partition>, clock: nat, locked: bool, pc: Option<Worker>): State {
    State(ps, map["d" := SLIP_DEVICE], map[[7] := 4 * Capacity.UNIT],
          if locked then map[[7] := 0] else map[],
          if pc.Some? then map[0 := pc.value] else map[],
          clock, if clock == 1 then {[1]} else if clock == 2 then {[1], [2]} else {[1], [2], [3]})
  }

  /** Until the record only the first agent is there, with the old object in hand. */
  function SlipBefore(m: State): Gate {
    Gate(m, {[1]}, map[0 := Passed(Snapshot(OLD, true))], {}, {[1]}, {})
  }

  function SlipAfter(m: State): Gate {
    SlipBefore(m).(identified := {[1], [3]}, misrecorded := {[3]})
  }

  function SlipStamped(m: State): Gate {
    SlipAfter(m).(stamped := {([2], SLIP_PLACEMENT)})
  }

  function SlipEnd(): Gate {
    SlipStamped(SlipManager([SLIP_PLACED], 6, false, None))
  }

  function SlipAt(i: int): Gate {
    match i
    case 0 => SlipBefore(SlipManager([OLD], 1, false, None)).(agents := map[])
    case 1 => SlipBefore(SlipManager([OLD], 1, false, None)).(agents := map[0 := Has(Snapshot(OLD, true))])
    case 2 => SlipBefore(SlipManager([OLD], 1, false, None))
    case 3 => SlipBefore(SlipManager([], 1, false, None))
    case 4 => SlipBefore(SlipManager([SECOND], 2, false, None))
    case 5 => SlipBefore(SlipManager([SECOND], 2, false, Some(Chosen(SLIP_JOB))))
    case 6 => SlipBefore(SlipManager([SECOND], 2, true, Some(Locked(SLIP_JOB))))
    case 7 => SlipBefore(SlipManager([SECOND], 2, true, Some(HavePartition(SLIP_JOB, SECOND))))
    case 8 => SlipBefore(SlipManager([SECOND], 2, true, Some(HaveDevice(SLIP_JOB, SECOND, SLIP_PLACEMENT))))
    case 9 => SlipBefore(SlipManager([SECOND], 2, true, Some(Admitted(SLIP_JOB, SECOND, SLIP_PLACEMENT))))
    case 10 => SlipBefore(SlipManager([], 2, true, Some(Admitted(SLIP_JOB, SECOND, SLIP_PLACEMENT))))
    case 11 => SlipBefore(SlipManager([THIRD], 3, true, Some(Admitted(SLIP_JOB, SECOND, SLIP_PLACEMENT))))
    case 12 => SlipAfter(SlipManager([SLIP_RECORDED], 4, true, Some(Admitted(SLIP_JOB, SECOND, SLIP_PLACEMENT))))
    case 13 => SlipStamped(SlipManager([SLIP_STAMPED], 5, true, Some(Stamped(SLIP_JOB, SLIP_STAMPED, SLIP_PLACEMENT))))
    case 14 => SlipEnd()
    case 15 => SlipEnd().(agents := map[0 := Passed(Snapshot(OLD, true)), 1 := Has(Snapshot(SLIP_PLACED, true))])
    case _ => SlipEnd().(agents := map[0 := Passed(Snapshot(OLD, true)), 1 := Passed(Snapshot(SLIP_PLACED, true))])
  }

  function SlipStepAt(i: int): GateStep {
    match i
    case 0 => AgentRead(0, "a")
    case 1 => AgentVerify(0)
    case 2 => Manage(Remove(0))
    case 3 => Manage(Create(SECOND))
    case 4 => Manage(Begin(0, SLIP_JOB))
    case 5 => Manage(Acquire(0))
    case 6 => Manage(ReadPartition(0))
    case 7 => Manage(ReadDevice(0))
    case 8 => Manage(ListAndCheck(0))
    case 9 => Manage(Remove(0))
    case 10 => Manage(Create(THIRD))
    case 11 => AgentRecord(0)
    case 12 => Manage(StampStatus(0))
    case 13 => Manage(UpdateSpec(0, false))
    case 14 => AgentRead(1, "a")
    case _ => AgentVerify(1)
  }

  lemma SlipInit()
    ensures GateInit(SlipAt(0))
  {
    var s := SlipAt(0).manager;
    forall serial
      ensures Used(s.partitions, serial) <= Total(s, serial)
    {
      assert s.partitions[1..] == [];
    }
  }

  lemma SlipOldPasses(i: int)
    requires i == 0 || i == 1
    ensures GateNext(SlipAt(i), SlipAt(i + 1), SlipStepAt(i))
  {
    assert Find([OLD], "a") == Some(0);
  }

  lemma SlipReplaces(i: int)
    requires i == 2 || i == 9
    ensures GateNext(SlipAt(i), SlipAt(i + 1), SlipStepAt(i))
  {
    assert [OLD][..0] + [OLD][1..] == [] && [SECOND][..0] + [SECOND][1..] == [];
    assert WorldNext(SlipAt(i).manager, SlipAt(i + 1).manager, Remove(0));
  }

  lemma SlipCreates(i: int)
    requires i == 3 || i == 10
    ensures GateNext(SlipAt(i), SlipAt(i + 1), SlipStepAt(i))
  {
    assert WorldNext(SlipAt(i).manager, SlipAt(i + 1).manager, SlipStepAt(i).step);
  }

  lemma SlipBegins()
    ensures GateNext(SlipAt(4), SlipAt(5), SlipStepAt(4))
  {
    assert SECOND in [SECOND];
    assert Begins(SlipAt(4).manager, SlipAt(5).manager, 0, SLIP_JOB);
  }

  lemma SlipLocks()
    ensures GateNext(SlipAt(5), SlipAt(6), SlipStepAt(5))
  {
    assert Acquires(SlipAt(5).manager, SlipAt(6).manager, 0);
  }

  lemma SlipReads()
    ensures GateNext(SlipAt(6), SlipAt(7), SlipStepAt(6))
  {
    assert Find([SECOND], "a") == Some(0);
    assert ReadsPartition(SlipAt(6).manager, SlipAt(7).manager, 0);
  }

  lemma SlipFindsDevice()
    ensures GateNext(SlipAt(7), SlipAt(8), SlipStepAt(7))
  {
    assert ReadsDevice(SlipAt(7).manager, SlipAt(8).manager, 0);
  }

  lemma SlipPasses()
    ensures GateNext(SlipAt(8), SlipAt(9), SlipStepAt(8))
  {
    assert [SECOND][1..] == [];
    assert Used([SECOND], [7]) == 0;
    assert Lists(SlipAt(8).manager, SlipAt(9).manager, 0);
  }

  lemma SlipRecords()
    ensures GateNext(SlipAt(11), SlipAt(12), SlipStepAt(11))
  {
    assert Find([THIRD], "a") == Some(0);
    assert [THIRD][0 := SLIP_RECORDED] == [SLIP_RECORDED];
    assert Records(SlipAt(11), SlipAt(12), 0);
  }

  lemma SlipStamps()
    ensures GateNext(SlipAt(12), SlipAt(13), SlipStepAt(12))
  {
    assert [SLIP_RECORDED][0 := SLIP_STAMPED] == [SLIP_STAMPED];
    assert Find([SLIP_RECORDED], "a") == Some(0);
    assert Stamps(SlipAt(12).manager, SlipAt(13).manager, 0);
  }

  lemma SlipAssigns()
    ensures GateNext(SlipAt(13), SlipAt(14), SlipStepAt(13))
  {
    assert [SLIP_STAMPED][0 := SLIP_PLACED] == [SLIP_PLACED];
    assert Find([SLIP_STAMPED], "a") == Some(0);
    assert Updates(SlipAt(13).manager, SlipAt(14).manager, 0, false);
  }

  lemma SlipThirdPasses(i: int)
    requires i == 14 || i == 15
    ensures GateNext(SlipAt(i), SlipAt(i + 1), SlipStepAt(i))
  {
    assert Find([SLIP_PLACED], "a") == Some(0);
  }

  lemma SlipStep(i: int)
    requires 0 <= i < 16
    ensures GateNext(SlipAt(i), SlipAt(i + 1), SlipStepAt(i))
  {
    match i
    case 0 => SlipOldPasses(0);
    case 1 => SlipOldPasses(1);
    case 2 => SlipReplaces(2);
    case 3 => SlipCreates(3);
    case 4 => SlipBegins();
    case 5 => SlipLocks();
    case 6 => SlipReads();
    case 7 => SlipFindsDevice();
    case 8 => SlipPasses();
    case 9 => SlipReplaces(9);
    case 10 => SlipCreates(10);
    case 11 => SlipRecords();
    case 12 => SlipStamps();
    case 13 => SlipAssigns();
    case 14 => SlipThirdPasses(14);
    case _ => SlipThirdPasses(15);
  }

  /** The third object passes the gate although it was never stamped for itself. */
  lemma UnstampedObjectPasses() returns (run: seq<Gate>, steps: seq<GateStep>)
    ensures IsGateRun(run, steps)
    ensures 1 in Last(run).agents && Last(run).agents[1].Passed?
    ensures var p := Last(run).agents[1].read.copy;
            p.uid !in Last(run).legacy && p.placement.Some? && (p.uid, p.placement.value) !in Last(run).stamped
  {
    SlipInit();
    run, steps := seq(17, i => SlipAt(i)), seq(16, i => SlipStepAt(i));
    forall i | 0 <= i < |steps|
      ensures GateNext(run[i], run[i + 1], steps[i])
    {
      SlipStep(i);
    }
  }
}
