/**
 Exactly when an identity recorded by name keeps the agents' gate honest, over everything that
 can still happen: the scheduler may go on placing the object that got the record.
 */
module GateRecords {
  import opened Options
  import opened Bytes
  import opened PlacementAuth
  import opened Reservation
  import opened AgentGate
  import opened Runs
  import Capacity

  /** The worker has read a partition and not stamped it yet. */
  predicate Open(pc: Worker) {
    pc.HavePartition? || pc.HaveDevice? || pc.Admitted?
  }

  /** The worker is about to stamp `p` with a copy of another object in hand. */
  predicate Astray(pc: Worker, p: Partition) {
    Open(pc) && p.name == pc.job.name && p.uid != pc.copy.uid
  }

  /** The worker's update of `p` would not conflict. */
  predicate Current(pc: Worker, p: Partition) {
    pc.Stamped? && p.name == pc.job.name && p.version == pc.copy.version
  }

  // ---------------------------------------------------------------- what workers hold

  predicate IsBy(step: Step, w: nat) {
    match step
    case Begin(v, _) => v == w
    case Acquire(v) => v == w
    case ReadPartition(v) => v == w
    case ReadDevice(v) => v == w
    case ListAndCheck(v) => v == w
    case StampStatus(v) => v == w
    case UpdateSpec(v, _) => v == w
    case Abandon(v) => v == w
    case _ => false
  }

  /** A worker moves by its own steps only. */
  lemma OthersStay(s: State, s': State, step: Step, w: nat)
    requires Next(s, s', step) && w in s'.workers && !IsBy(step, w)
    ensures w in s.workers && s.workers[w] == s'.workers[w]
  {
    match step
    case StampStatus(v) => StampTouchesOne(s, s', v, w);
    case UpdateSpec(v, retry) => UpdateTouchesOne(s, s', v, retry, w);
    case _ =>
  }

  lemma StampTouchesOne(s: State, s': State, v: nat, w: nat)
    requires Stamps(s, s', v) && w in s'.workers && w != v
    ensures w in s.workers && s.workers[w] == s'.workers[w]
  {
  }

  lemma UpdateTouchesOne(s: State, s': State, v: nat, retry: bool, w: nat)
    requires Updates(s, s', v, retry) && w in s'.workers && w != v
    ensures w in s.workers && s.workers[w] == s'.workers[w]
  {
  }

  lemma OpenComesFrom(s: State, s': State, step: Step, w: nat)
    requires Next(s, s', step) && w in s'.workers && Open(s'.workers[w]) && step != ReadPartition(w)
    ensures w in s.workers && Open(s.workers[w]) && s.workers[w].job == s'.workers[w].job && s.workers[w].copy == s'.workers[w].copy
  {
    if !IsBy(step, w) {
      OthersStay(s, s', step, w);
    } else if step.StampStatus? || step.UpdateSpec? {
      assert false;
    }
  }

  lemma StampedComesFrom(s: State, s': State, step: Step, w: nat)
    requires Next(s, s', step) && w in s'.workers && s'.workers[w].Stamped? && step != StampStatus(w)
    ensures w in s.workers && s.workers[w] == s'.workers[w]
  {
    if IsBy(step, w) {
      assert false;
    }
    OthersStay(s, s', step, w);
  }

  /** The lock keeps others away: while a worker holds a copy of another object, nobody has
      stamped the present object of that name for the worker's device. */
  ghost predicate Exclusive(g: Gate) {
    && (forall u, pl :: (u, pl) in g.stamped ==> u in g.manager.uids)
    && (forall w, p, pl :: w in g.manager.workers && p in g.manager.partitions && (p.uid, pl) in g.stamped ==>
          Astray(g.manager.workers[w], p) ==> pl.serial != g.manager.workers[w].job.serial)
  }

  lemma SameName(s: State, p: Partition, q: Partition)
    requires Basic(s) && p in s.partitions && q in s.partitions && (p.name == q.name || p.uid == q.uid)
    ensures p == q
  {
    var i :| 0 <= i < |s.partitions| && s.partitions[i] == p;
    var j :| 0 <= j < |s.partitions| && s.partitions[j] == q;
  }

  /** A worker goes astray only where it was astray on the object before. */
  lemma AstrayComesFrom(s: State, s': State, step: Step, w: nat, q: Partition, p: Partition)
    requires Basic(s) && Next(s, s', step) && w in s'.workers && Astray(s'.workers[w], p)
    requires q in s.partitions && q.uid == p.uid && q.name == p.name
    ensures w in s.workers && Astray(s.workers[w], q) && s.workers[w].job == s'.workers[w].job && s.workers[w].copy == s'.workers[w].copy
  {
    if step == ReadPartition(w) {
      assert ReadsPartition(s, s', w);
      var found := Find(s.partitions, s.workers[w].job.name);
      SameName(s, q, s.partitions[found.value]);
      assert false;
    }
    OpenComesFrom(s, s', step, w);
  }

  lemma ManageKeepsExclusive(g: Gate, g': Gate, step: Step)
    requires Basic(g.manager) && Tracked(g.manager) && Exclusive(g) && GateNext(g, g', Manage(step))
    ensures Exclusive(g')
  {
    var s, s' := g.manager, g'.manager;
    StepKeepsUids(s, s', step);
    forall w, p, pl | w in s'.workers && p in s'.partitions && (p.uid, pl) in g'.stamped && Astray(s'.workers[w], p)
      ensures pl.serial != s'.workers[w].job.serial
    {
      StepContinues(s, s', step, p);
      var q :| q in s.partitions && Continuation(s, q, p);
      AstrayComesFrom(s, s', step, w, q, p);
      if (p.uid, pl) !in g.stamped {
        StampIsElsewhere(s, s', step, w, pl);
      }
    }
  }

  /** A stamp is for the device whose lock the stamping worker holds. */
  lemma StampIsElsewhere(s: State, s': State, step: Step, w: nat, pl: Placement)
    requires Basic(s) && Next(s, s', step) && w in s'.workers && Open(s'.workers[w]) && w in s.workers && Open(s.workers[w])
    requires s.workers[w].job == s'.workers[w].job
    requires exists u :: (u, pl) in StampOf(s, step)
    ensures pl.serial != s'.workers[w].job.serial
  {
    assert Stamps(s, s', step.w);
    assert w != step.w;
  }

  // ---------------------------------------------------------------- guarded objects

  /** Whatever is in flight, object `u` gets no placement but one stamped for it. */
  ghost predicate Guarded(s: State, stamped: set<(GoString, Placement)>, u: GoString) {
    && u in s.uids
    && (forall p :: p in s.partitions && p.uid == u && p.placement.Some? ==> (u, p.placement.value) in stamped)
    && (forall w, p :: w in s.workers && p in s.partitions && p.uid == u && p.placement.None? ==> Harmless(s.workers[w], p, stamped))
  }

  predicate Harmless(pc: Worker, p: Partition, stamped: set<(GoString, Placement)>) {
    !Astray(pc, p) && (Current(pc, p) ==> (p.uid, pc.placement) in stamped)
  }

  lemma OthersPlaceNothing(s: State, s': State, step: Step, p: Partition)
    requires Next(s, s', step) && !step.UpdateSpec? && p in s'.partitions && p.uid in s.uids
    ensures exists r :: r in s.partitions && r.uid == p.uid && r.placement == p.placement
  {
    var j :| 0 <= j < |s'.partitions| && s'.partitions[j] == p;
    match step
    case Remove(k) => assert p in s.partitions;
    case Create(_) => assert p in s.partitions;
    case StampStatus(w) => assert Stamps(s, s', w) && s.partitions[j] in s.partitions;
    case MarkDeleted(k) => assert s.partitions[j] in s.partitions;
    case TouchStatus(k) => assert s.partitions[j] in s.partitions;
    case UpdateSpec(_, _) =>
    case _ => assert s'.partitions == s.partitions;
  }

  /** Only an update whose copy is current places an object. */
  lemma PlacedByUpdate(s: State, s': State, step: Step, p: Partition, q: Partition)
    requires Basic(s) && Next(s, s', step) && p in s'.partitions && p.placement.Some?
    requires q in s.partitions && q.uid == p.uid && q.placement.None?
    ensures step.UpdateSpec? && step.w in s.workers && Current(s.workers[step.w], q) && p.placement.value == s.workers[step.w].placement
  {
    if !step.UpdateSpec? {
      OthersPlaceNothing(s, s', step, p);
      var r :| r in s.partitions && r.uid == p.uid && r.placement == p.placement;
      SameName(s, r, q);
      assert false;
    }
    UpdatePlaces(s, s', step.w, step.retry, p, q);
  }

  lemma UpdatePlaces(s: State, s': State, w: nat, retry: bool, p: Partition, q: Partition)
    requires Basic(s) && Updates(s, s', w, retry) && p in s'.partitions && p.placement.Some?
    requires q in s.partitions && q.uid == p.uid && q.placement.None?
    ensures Current(s.workers[w], q) && p.placement.value == s.workers[w].placement
  {
    if p in s.partitions {
      SameName(s, p, q);
      assert false;
    }
    var k := Find(s.partitions, s.workers[w].job.name).value;
    assert s.partitions[k] in s.partitions;
    SameName(s, s.partitions[k], q);
  }

  lemma StepKeepsHarmless(s: State, s': State, step: Step, stamped: set<(GoString, Placement)>, w: nat, q: Partition, p: Partition)
    requires Basic(s) && Tracked(s) && Next(s, s', step) && w in s'.workers
    requires q in s.partitions && Continuation(s, q, p) && q.placement.None?
    requires w in s.workers ==> Harmless(s.workers[w], q, stamped)
    ensures Harmless(s'.workers[w], p, stamped + StampOf(s, step))
  {
    if Astray(s'.workers[w], p) {
      AstrayComesFrom(s, s', step, w, q, p);
      assert false;
    }
    if Current(s'.workers[w], p) {
      if step == StampStatus(w) {
        assert Stamps(s, s', w);
      } else {
        StampedComesFrom(s, s', step, w);
      }
    }
  }

  lemma PlacementStaysStamped(s: State, s': State, step: Step, stamped: set<(GoString, Placement)>, u: GoString, p: Partition)
    requires Basic(s) && Next(s, s', step) && Guarded(s, stamped, u) && p in s'.partitions && p.uid == u && p.placement.Some?
    ensures (u, p.placement.value) in stamped
  {
    StepContinues(s, s', step, p);
    var q :| q in s.partitions && Continuation(s, q, p);
    if q.placement.None? {
      PlacedByUpdate(s, s', step, p, q);
      assert Harmless(s.workers[step.w], q, stamped);
    }
  }

  lemma WorkerStaysHarmless(s: State, s': State, step: Step, stamped: set<(GoString, Placement)>, u: GoString, w: nat, p: Partition)
    requires Basic(s) && Tracked(s) && Next(s, s', step) && Guarded(s, stamped, u)
    requires w in s'.workers && p in s'.partitions && p.uid == u && p.placement.None?
    ensures Harmless(s'.workers[w], p, stamped + StampOf(s, step))
  {
    StepContinues(s, s', step, p);
    var q :| q in s.partitions && Continuation(s, q, p);
    StepKeepsHarmless(s, s', step, stamped, w, q, p);
  }

  lemma StepKeepsGuarded(s: State, s': State, step: Step, stamped: set<(GoString, Placement)>, u: GoString)
    requires Basic(s) && Tracked(s) && Next(s, s', step) && Guarded(s, stamped, u)
    ensures Guarded(s', stamped + StampOf(s, step), u)
  {
    StepKeepsUids(s, s', step);
    forall p | p in s'.partitions && p.uid == u && p.placement.Some?
      ensures (u, p.placement.value) in stamped
    {
      PlacementStaysStamped(s, s', step, stamped, u, p);
    }
    forall w, p | w in s'.workers && p in s'.partitions && p.uid == u && p.placement.None?
      ensures Harmless(s'.workers[w], p, stamped + StampOf(s, step))
    {
      WorkerStaysHarmless(s, s', step, stamped, u, w, p);
    }
  }

  // ---------------------------------------------------------------- continuations

  ghost predicate IsGatePath(path: seq<Gate>, steps: seq<GateStep>) {
    |path| == |steps| + 1 && forall i :: 0 <= i < |steps| ==> GateNext(path[i], path[i + 1], steps[i])
  }

  ghost predicate AllFaithful(path: seq<Gate>, steps: seq<GateStep>)
    requires |path| == |steps| + 1
  {
    forall i :: 0 <= i < |steps| ==> FaithfulRecord(path[i], steps[i])
  }

  /** The gate accepts nothing but what was stamped as it is placed, and objects of older releases. */
  ghost predicate Honest(g: Gate) {
    forall k :: 0 <= k < |g.manager.partitions| && Accepts(Look(g, k)) ==>
      var p := g.manager.partitions[k];
      (p.uid, p.placement.value) in g.stamped || p.uid in g.legacy
  }

  /** The gate stays honest whatever happens, if all later records land on the object that was read. */
  ghost predicate StaysHonest(g: Gate) {
    forall path, steps :: IsGatePath(path, steps) && path[0] == g && AllFaithful(path, steps) ==> Honest(Last(path))
  }

  /** Objects that got an identity meant for another one are excused or guarded. */
  ghost predicate Contained(g: Gate, us: set<GoString>) {
    && GateInv(g) && Tracked(g.manager) && g.misrecorded <= g.legacy + us
    && forall u :: u in us ==> Guarded(g.manager, g.stamped, u)
  }

  lemma ContainedIsHonest(g: Gate, us: set<GoString>)
    requires Contained(g, us)
    ensures Honest(g)
  {
    forall k | 0 <= k < |g.manager.partitions| && Accepts(Look(g, k))
      ensures var p := g.manager.partitions[k]; (p.uid, p.placement.value) in g.stamped || p.uid in g.legacy
    {
      assert g.manager.partitions[k] in g.manager.partitions;
      LookHolds(g, k);
      AcceptedIsVouched(g, Look(g, k));
    }
  }

  lemma StepKeepsContained(g: Gate, g': Gate, step: GateStep, us: set<GoString>)
    requires Contained(g, us) && GateNext(g, g', step) && FaithfulRecord(g, step)
    ensures Contained(g', us)
  {
    GateStepKeepsInv(g, g', step);
    if step.Manage? {
      StepKeepsTracked(g.manager, g'.manager, step.step);
      forall u | u in us
        ensures Guarded(g'.manager, g'.stamped, u)
      {
        StepKeepsGuarded(g.manager, g'.manager, step.step, g.stamped, u);
      }
    } else if g'.manager != g.manager {
      var k := Find(g.manager.partitions, g.agents[step.a].read.copy.name).value;
      assert Next(g.manager, g'.manager, TouchStatus(k));
      StepKeepsTracked(g.manager, g'.manager, TouchStatus(k));
      forall u | u in us
        ensures Guarded(g'.manager, g'.stamped, u)
      {
        StepKeepsGuarded(g.manager, g'.manager, TouchStatus(k), g.stamped, u);
        assert g.stamped + StampOf(g.manager, TouchStatus(k)) == g'.stamped;
      }
    }
  }

  lemma {:induction false} PathKeepsContained(path: seq<Gate>, steps: seq<GateStep>, i: nat, us: set<GoString>)
    requires IsGatePath(path, steps) && AllFaithful(path, steps) && i < |path| && Contained(path[0], us)
    ensures Contained(path[i], us)
  {
    if i > 0 {
      PathKeepsContained(path, steps, i - 1, us);
      assert GateNext(path[i - 1], path[(i - 1) + 1], steps[i - 1]) && FaithfulRecord(path[i - 1], steps[i - 1]);
      StepKeepsContained(path[i - 1], path[i], steps[i - 1], us);
    }
  }

  lemma ContainedStaysHonest(g: Gate, us: set<GoString>)
    requires Contained(g, us)
    ensures StaysHonest(g)
  {
    forall path, steps | IsGatePath(path, steps) && path[0] == g && AllFaithful(path, steps)
      ensures Honest(Last(path))
    {
      PathKeepsContained(path, steps, |path| - 1, us);
      ContainedIsHonest(Last(path), us);
    }
  }

  // ---------------------------------------------------------------- a way through

  lemma Managed(path: seq<Gate>, steps: seq<GateStep>, s': State, step: Step) returns (path': seq<Gate>, steps': seq<GateStep>)
    requires IsGatePath(path, steps) && AllFaithful(path, steps) && Next(Last(path).manager, s', step)
    ensures IsGatePath(path', steps') && AllFaithful(path', steps') && path'[0] == path[0]
    ensures Last(path') == Last(path).(manager := s', stamped := Last(path).stamped + StampOf(Last(path).manager, step))
  {
    var g := Last(path);
    var g' := g.(manager := s', stamped := g.stamped + StampOf(g.manager, step));
    path', steps' := path + [g'], steps + [Manage(step)];
    forall i | 0 <= i < |steps'|
      ensures GateNext(path'[i], path'[i + 1], steps'[i]) && FaithfulRecord(path'[i], steps'[i])
    {
      if i < |steps| {
        assert GateNext(path[i], path[i + 1], steps[i]) && FaithfulRecord(path[i], steps[i]);
      }
    }
  }

  /** A worker that has read another object of the name holds its copy when `k` carries an identity. */
  ghost predicate Loose(g: Gate, w: nat, k: nat) {
    && Basic(g.manager) && w in g.manager.workers && k < |g.manager.partitions|
    && var o := g.manager.partitions[k];
       && Astray(g.manager.workers[w], o) && o.placement.None?
       && o.uid in g.identified && o.uid !in g.legacy
       && forall pl :: (o.uid, pl) in g.stamped ==> pl.serial != g.manager.workers[w].job.serial
  }

  lemma ThroughAdmitted(path: seq<Gate>, steps: seq<GateStep>, w: nat, k: nat) returns (path': seq<Gate>, steps': seq<GateStep>)
    requires IsGatePath(path, steps) && AllFaithful(path, steps) && Loose(Last(path), w, k) && Last(path).manager.workers[w].Admitted?
    ensures IsGatePath(path', steps') && AllFaithful(path', steps') && path'[0] == path[0] && !Honest(Last(path'))
  {
    var g := Last(path);
    var s := g.manager;
    var Admitted(job, copy, pl) := s.workers[w];
    FindIsUnique(s, k, job.name);
    var s1 := Write(s, k, StampOn(s.partitions[k], copy, pl));
    var s2 := Move(s1, w, Stamped(job, s1.partitions[k], pl));
    assert Stamps(s, s2, w);
    StampKeepsBasic(s, s2, w);
    path', steps' := Managed(path, steps, s2, StampStatus(w));
    FindIsUnique(s2, k, job.name);
    var s3 := Stop(Write(s2, k, Assigned(s2.partitions[k], pl)), w);
    assert Updates(s2, s3, w, false);
    path', steps' := Managed(path', steps', s3, UpdateSpec(w, false));
    assert Accepts(Look(Last(path'), k));
  }

  /** All other objects can go. */
  lemma {:induction false} Cleared(path: seq<Gate>, steps: seq<GateStep>, k: nat) returns (path': seq<Gate>, steps': seq<GateStep>)
    requires IsGatePath(path, steps) && AllFaithful(path, steps) && k < |Last(path).manager.partitions|
    ensures IsGatePath(path', steps') && AllFaithful(path', steps') && path'[0] == path[0]
    ensures Last(path') == Last(path).(manager := Last(path).manager.(partitions := [Last(path).manager.partitions[k]]))
    decreases |Last(path).manager.partitions|
  {
    var s := Last(path).manager;
    if |s.partitions| == 1 {
      path', steps' := path, steps;
      assert s.partitions == [s.partitions[k]];
    } else {
      var j := if k == 0 then 1 else 0;
      var s' := s.(partitions := s.partitions[..j] + s.partitions[j + 1..]);
      assert s'.partitions[if k == 0 then 0 else k - 1] == s.partitions[k];
      assert WorldNext(s, s', Remove(j));
      path', steps' := Managed(path, steps, s', Remove(j));
      assert Last(path') == Last(path).(manager := s');
      path', steps' := Cleared(path', steps', if k == 0 then 0 else k - 1);
    }
  }

  lemma ThroughHaveDevice(path: seq<Gate>, steps: seq<GateStep>, w: nat, k: nat) returns (path': seq<Gate>, steps': seq<GateStep>)
    requires IsGatePath(path, steps) && AllFaithful(path, steps) && Loose(Last(path), w, k) && Last(path).manager.workers[w].HaveDevice?
    ensures IsGatePath(path', steps') && AllFaithful(path', steps') && path'[0] == path[0] && !Honest(Last(path'))
  {
    var o := Last(path).manager.partitions[k];
    assert o in Last(path).manager.partitions;
    path', steps' := Cleared(path, steps, k);
    var s := Last(path').manager;
    var HaveDevice(job, copy, pl) := s.workers[w];
    var total := if Total(s, job.serial) < job.requested then job.requested else Total(s, job.serial);
    var s1 := s.(advertised := s.advertised[job.serial := total]);
    assert WorldNext(s, s1, Grow(job.serial, total));
    path', steps' := Managed(path', steps', s1, Grow(job.serial, total));
    assert s1.partitions[1..] == [] && Used(s1.partitions, job.serial) == 0;
    var s2 := Move(s1, w, Admitted(job, copy, pl));
    assert Lists(s1, s2, w);
    ReadKeepsBasic(s1, s2, w);
    path', steps' := Managed(path', steps', s2, ListAndCheck(w));
    path', steps' := ThroughAdmitted(path', steps', w, 0);
  }

  lemma ThroughHavePartition(path: seq<Gate>, steps: seq<GateStep>, w: nat, k: nat) returns (path': seq<Gate>, steps': seq<GateStep>)
    requires IsGatePath(path, steps) && AllFaithful(path, steps) && Loose(Last(path), w, k) && Last(path).manager.workers[w].HavePartition?
    ensures IsGatePath(path', steps') && AllFaithful(path', steps') && path'[0] == path[0] && !Honest(Last(path'))
  {
    var s := Last(path).manager;
    var HavePartition(job, copy) := s.workers[w];
    var d := Device(job.serial, [1], ClaimRef([1], [1], [1]), true);
    var s1 := s.(devices := s.devices[job.device := d]);
    assert WorldNext(s, s1, ChangeDevice(job.device, d));
    path', steps' := Managed(path, steps, s1, ChangeDevice(job.device, d));
    var s2 := Move(s1, w, HaveDevice(job, copy, PlacementOn(d)));
    assert ReadsDevice(s1, s2, w);
    ReadKeepsBasic(s1, s2, w);
    path', steps' := Managed(path', steps', s2, ReadDevice(w));
    path', steps' := ThroughHaveDevice(path', steps', w, k);
  }

  lemma LooseCannotStayHonest(g: Gate, w: nat, k: nat)
    requires Loose(g, w, k)
    ensures !StaysHonest(g)
  {
    var path, steps;
    match g.manager.workers[w]
    case HavePartition(_, _) => path, steps := ThroughHavePartition([g], [], w, k);
    case HaveDevice(_, _, _) => path, steps := ThroughHaveDevice([g], [], w, k);
    case Admitted(_, _, _) => path, steps := ThroughAdmitted([g], [], w, k);
  }

  // ---------------------------------------------------------------- exactly when

  /** What a caller of the status write could look at: the record lands on the object that was read, on one
      of an older release, on one placed as stamped, or on one without a placement that no
      worker will place with a copy of another object in hand. */
  ghost predicate SafeRecord(g: Gate, copy: Partition, o: Partition) {
    || o.uid == copy.uid
    || o.uid in g.legacy
    || (o.placement.Some? && (o.uid, o.placement.value) in g.stamped)
    || (o.placement.None? && forall w :: w in g.manager.workers ==> !Astray(g.manager.workers[w], o))
  }

  lemma {:induction false} GateRunIsExclusive(run: seq<Gate>, steps: seq<GateStep>, i: nat)
    requires IsGateRun(run, steps) && i < |run|
    ensures GateInv(run[i]) && Tracked(run[i].manager) && Exclusive(run[i])
  {
    GateRunKeepsInv(run, steps, i);
    if i > 0 {
      GateRunIsExclusive(run, steps, i - 1);
      assert GateNext(run[i - 1], run[(i - 1) + 1], steps[i - 1]);
      AgentsKeepExclusive(run[i - 1], run[i], steps[i - 1]);
    }
  }

  lemma AgentsKeepExclusive(g: Gate, g': Gate, step: GateStep)
    requires GateInv(g) && Tracked(g.manager) && Exclusive(g) && GateNext(g, g', step)
    ensures Tracked(g'.manager) && Exclusive(g')
  {
    if step.Manage? {
      StepKeepsTracked(g.manager, g'.manager, step.step);
      ManageKeepsExclusive(g, g', step.step);
    } else if g'.manager != g.manager {
      var k := Find(g.manager.partitions, g.agents[step.a].read.copy.name).value;
      var mid := g.(manager := g'.manager);
      assert GateNext(g, mid, Manage(TouchStatus(k)));
      StepKeepsTracked(g.manager, mid.manager, TouchStatus(k));
      ManageKeepsExclusive(g, mid, TouchStatus(k));
    }
  }

  lemma SafeRecordIsContained(g: Gate, g': Gate, a: nat, k: nat)
    requires GateInv(g) && Tracked(g.manager) && g.misrecorded == {}
    requires Records(g, g', a) && Find(g.manager.partitions, g.agents[a].read.copy.name) == Some(k)
    requires SafeRecord(g, g.agents[a].read.copy, g.manager.partitions[k])
    ensures StaysHonest(g')
  {
    var o := g.manager.partitions[k];
    assert o in g.manager.partitions;
    RecordKeepsInv(g, g', a);
    assert Next(g.manager, g'.manager, TouchStatus(k));
    StepKeepsTracked(g.manager, g'.manager, TouchStatus(k));
    if o.uid == g.agents[a].read.copy.uid || o.uid in g.legacy {
      ContainedStaysHonest(g', {});
    } else {
      forall p | p in g'.manager.partitions && p.uid == o.uid
        ensures p == o.(version := g.manager.clock)
      {
        assert g'.manager.partitions[k] in g'.manager.partitions;
        SameName(g'.manager, p, g'.manager.partitions[k]);
      }
      assert Guarded(g'.manager, g'.stamped, o.uid);
      ContainedStaysHonest(g', {o.uid});
    }
  }

  lemma UnsafeRecordCannotStayHonest(g: Gate, g': Gate, a: nat, k: nat)
    requires GateInv(g) && Tracked(g.manager) && Exclusive(g)
    requires Records(g, g', a) && Find(g.manager.partitions, g.agents[a].read.copy.name) == Some(k)
    requires !SafeRecord(g, g.agents[a].read.copy, g.manager.partitions[k])
    ensures !StaysHonest(g')
  {
    var o := g.manager.partitions[k];
    assert o in g.manager.partitions;
    RecordKeepsInv(g, g', a);
    if o.placement.Some? {
      assert Accepts(Look(g', k));
      assert IsGatePath([g'], []) && AllFaithful([g'], []) && !Honest(Last([g']));
    } else {
      var w :| w in g.manager.workers && Astray(g.manager.workers[w], o);
      LooseCannotStayHonest(g', w, k);
    }
  }

  /** In every reachable state in which no record went astray yet, a record keeps the gate honest for
      ever, provided later ones do not go astray, exactly when it is safe. */
  lemma RecordKeepsGateIff(run: seq<Gate>, steps: seq<GateStep>, g': Gate, a: nat, k: nat)
    requires IsGateRun(run, steps) && Last(run).misrecorded == {}
    requires Records(Last(run), g', a) && Find(Last(run).manager.partitions, Last(run).agents[a].read.copy.name) == Some(k)
    ensures StaysHonest(g') <==> SafeRecord(Last(run), Last(run).agents[a].read.copy, Last(run).manager.partitions[k])
  {
    GateRunIsExclusive(run, steps, |run| - 1);
    if SafeRecord(Last(run), Last(run).agents[a].read.copy, Last(run).manager.partitions[k]) {
      SafeRecordIsContained(Last(run), g', a, k);
    } else {
      UnsafeRecordCannotStayHonest(Last(run), g', a, k);
    }
  }
}
