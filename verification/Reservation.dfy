/**
 Capacity reservation by the partition scheduler.

 Any number of reconcile workers reserve capacity at the same time.  A worker holds the
 lock of its candidate's serial number while it re-reads the partition and the device,
 lists all partitions, stamps the status and updates the spec; each of those API calls is
 a separate step.  Partitions are addressed by name, so an object can be deleted and a
 namesake created between two calls.  Device totals do not shrink, and only this
 scheduler writes placements.
 */
module Reservation {
  import opened Options
  import opened Bytes
  import opened PlacementAuth
  import Capacity

  datatype Placement = Placement(node: GoString, serial: GoString, claim: ClaimRef)

  datatype Partition = Partition(
    name: string,
    uid: GoString,
    size: int,
    version: nat,
    generation: nat,
    deleting: bool,
    placement: Option<Placement>,
    fingerprint: Option<Digest>,
    stampedGeneration: Option<nat>)

  /** The device fields the scheduler reads; `eligible` folds in state, backend, live claim
      and node readiness, which other controllers change at any time. */
  datatype Device = Device(serial: GoString, node: GoString, claim: ClaimRef, eligible: bool)

  datatype Job = Job(name: string, device: string, serial: GoString, requested: int)

  /** A worker's position in reserveCandidate, with the objects it has read so far. */
  datatype Worker =
    | Chosen(job: Job)
    | Locked(job: Job)
    | HavePartition(job: Job, copy: Partition)
    | HaveDevice(job: Job, copy: Partition, placement: Placement)
    | Admitted(job: Job, copy: Partition, placement: Placement)
    | Stamped(job: Job, copy: Partition, placement: Placement)

  datatype State = State(
    partitions: seq<Partition>,
    devices: map<string, Device>,
    advertised: map<GoString, nat>,
    locks: map<GoString, nat>,
    workers: map<nat, Worker>,
    clock: nat,
    uids: set<GoString>)

  // ---------------------------------------------------------------- the books

  function Weight(p: Partition, serial: GoString): int {
    if p.placement.Some? && p.placement.value.serial == serial then Capacity.Rounded(p.size) else 0
  }

  /** Sum of the rounded sizes assigned to a device serial. */
  function Used(ps: seq<Partition>, serial: GoString): int {
    if ps == [] then 0 else Weight(ps[0], serial) + Used(ps[1..], serial)
  }

  lemma {:induction false} UsedConcat(a: seq<Partition>, b: seq<Partition>, serial: GoString)
    ensures Used(a + b, serial) == Used(a, serial) + Used(b, serial)
  {
    if a == [] {
      assert a + b == b;
    } else {
      UsedConcat(a[1..], b, serial);
      assert (a + b)[1..] == a[1..] + b;
    }
  }

  lemma UsedSplit(ps: seq<Partition>, k: nat, serial: GoString)
    requires k < |ps|
    ensures Used(ps, serial) == Used(ps[..k], serial) + Weight(ps[k], serial) + Used(ps[k + 1..], serial)
  {
    assert ps == ps[..k] + ps[k..];
    UsedConcat(ps[..k], ps[k..], serial);
    assert ps[k..][1..] == ps[k + 1..];
  }

  lemma UsedUpdate(ps: seq<Partition>, k: nat, p: Partition, serial: GoString)
    requires k < |ps|
    ensures Used(ps[k := p], serial) == Used(ps, serial) - Weight(ps[k], serial) + Weight(p, serial)
  {
    UsedSplit(ps, k, serial);
    UsedSplit(ps[k := p], k, serial);
    assert ps[k := p][..k] == ps[..k] && ps[k := p][k + 1..] == ps[k + 1..];
  }

  /** allocatedCapacityForDevice: the exact sum, or an error exactly when a size assigned to
      the device cannot be rounded or the sum is not an int64. */
  method AllocatedCapacityForDevice(ps: seq<Partition>, serial: GoString) returns (r: Option<int>)
    ensures r.Some? <==>
              && (forall p :: p in ps && p.placement.Some? && p.placement.value.serial == serial ==> Capacity.Allocatable(p.size))
              && Used(ps, serial) <= Capacity.MAX_INT64
    ensures r.Some? ==> r.value == Used(ps, serial)
  {
    var used := 0;
    for i := 0 to |ps|
      invariant used == Used(ps[..i], serial) && 0 <= used <= Capacity.MAX_INT64
      invariant forall p :: p in ps[..i] && p.placement.Some? && p.placement.value.serial == serial ==> Capacity.Allocatable(p.size)
    {
      var p := ps[i];
      assert ps[..i + 1] == ps[..i] + [p];
      UsedConcat(ps[..i], [p], serial);
      if p.placement.Some? && p.placement.value.serial == serial {
        if !Capacity.Allocatable(p.size) {
          assert p in ps;
          return None;
        }
        var bytes := Capacity.Rounded(p.size);
        Capacity.RoundedIsLeast(p.size);
        if used > Capacity.MAX_INT64 - bytes {
          if forall q :: q in ps && q.placement.Some? && q.placement.value.serial == serial ==> Capacity.Allocatable(q.size) {
            UsedPrefix(ps, i + 1, serial);
          }
          return None;
        }
        used := used + bytes;
      }
    }
    assert ps[..|ps|] == ps;
    r := Some(used);
  }

  lemma UsedPrefix(ps: seq<Partition>, k: nat, serial: GoString)
    requires k <= |ps|
    requires forall p :: p in ps && p.placement.Some? && p.placement.value.serial == serial ==> Capacity.Allocatable(p.size)
    ensures Used(ps[..k], serial) <= Used(ps, serial)
  {
    assert ps == ps[..k] + ps[k..];
    UsedConcat(ps[..k], ps[k..], serial);
    UsedNonNegative(ps[k..], serial);
  }

  lemma {:induction false} UsedNonNegative(ps: seq<Partition>, serial: GoString)
    requires forall p :: p in ps && p.placement.Some? && p.placement.value.serial == serial ==> Capacity.Allocatable(p.size)
    ensures Used(ps, serial) >= 0
  {
    if ps != [] {
      UsedNonNegative(ps[1..], serial);
    }
  }

  // ---------------------------------------------------------------- API server

  ghost predicate NamesUnique(ps: seq<Partition>) {
    forall i, j :: 0 <= i < j < |ps| ==> ps[i].name != ps[j].name
  }

  function Find(ps: seq<Partition>, name: string): (r: Option<nat>)
    ensures r.Some? ==> r.value < |ps| && ps[r.value].name == name
    ensures r.None? ==> forall p :: p in ps ==> p.name != name
  {
    if ps == [] then None
    else if ps[0].name == name then Some(0)
    else
      match Find(ps[1..], name)
      case None => None
      case Some(k) => Some(k + 1)
  }

  function Total(s: State, serial: GoString): int {
    if serial in s.advertised then s.advertised[serial] else 0
  }

  /** Every write gives the object a resource version never used before. */
  function Write(s: State, k: nat, p: Partition): State
    requires k < |s.partitions|
  {
    s.(partitions := s.partitions[k := p.(version := s.clock)], clock := s.clock + 1)
  }

  // ---------------------------------------------------------------- scheduler steps

  datatype Step =
    | Begin(w: nat, job: Job)
    | Acquire(w: nat)
    | ReadPartition(w: nat)
    | ReadDevice(w: nat)
    | ListAndCheck(w: nat)
    | StampStatus(w: nat)
    | UpdateSpec(w: nat, retry: bool)
    | Abandon(w: nat)
    | Restart
    | Create(p: Partition)
    | MarkDeleted(k: nat)
    | Remove(k: nat)
    | TouchStatus(k: nat)
    | ChangeDevice(key: string, d: Device)
    | Grow(serial: GoString, total: nat)

  /** The worker stops; its deferred unlock runs. */
  function Stop(s: State, w: nat): State
    requires w in s.workers
  {
    s.(workers := s.workers - {w},
       locks := if s.workers[w].Chosen? then s.locks else s.locks - {s.workers[w].job.serial})
  }

  function Move(s: State, w: nat, pc: Worker): State {
    s.(workers := s.workers[w := pc])
  }

  function PlacementOn(d: Device): Placement {
    Placement(d.node, d.serial, d.claim)
  }

  /** The spec update: a change of placement starts a new generation. */
  function Assigned(p: Partition, pl: Placement): Partition {
    p.(placement := Some(pl), generation := if p.placement.Some? then p.generation else p.generation + 1)
  }

  /** Reconcile's own read: the request is rounded from this object and kept. */
  ghost predicate Begins(s: State, s': State, w: nat, job: Job) {
    && w !in s.workers
    && (exists p :: p in s.partitions && p.name == job.name && p.placement.None?
                    && Capacity.Allocatable(p.size) && job.requested == Capacity.Rounded(p.size))
    && s' == Move(s, w, Chosen(job))
  }

  ghost predicate Acquires(s: State, s': State, w: nat) {
    && w in s.workers && s.workers[w].Chosen?
    && s.workers[w].job.serial !in s.locks
    && s' == Move(s, w, Locked(s.workers[w].job)).(locks := s.locks[s.workers[w].job.serial := w])
  }

  ghost predicate ReadsPartition(s: State, s': State, w: nat) {
    && w in s.workers && s.workers[w].Locked?
    && var job := s.workers[w].job;
       var found := Find(s.partitions, job.name);
       s' == if found.None? || s.partitions[found.value].placement.Some? || s.partitions[found.value].deleting
             then Stop(s, w)
             else Move(s, w, HavePartition(job, s.partitions[found.value]))
  }

  ghost predicate ReadsDevice(s: State, s': State, w: nat) {
    && w in s.workers && s.workers[w].HavePartition?
    && var job := s.workers[w].job;
       s' == if job.device !in s.devices || s.devices[job.device].serial != job.serial || !s.devices[job.device].eligible
             then Stop(s, w)
             else Move(s, w, HaveDevice(job, s.workers[w].copy, PlacementOn(s.devices[job.device])))
  }

  ghost predicate Lists(s: State, s': State, w: nat) {
    && w in s.workers && s.workers[w].HaveDevice?
    && var job := s.workers[w].job;
       var used := Used(s.partitions, job.serial);
       s' == if used > Capacity.MAX_INT64 || Total(s, job.serial) - used < job.requested
             then Stop(s, w)
             else Move(s, w, Admitted(job, s.workers[w].copy, s.workers[w].placement))
  }

  function StampOn(p: Partition, copy: Partition, pl: Placement): Partition {
    p.(fingerprint := FingerprintOf(copy.uid, pl.node, pl.serial, Some(pl.claim)),
       stampedGeneration := Some(copy.generation + 1))
  }

  /** A merge patch without resource version: it lands on whatever object has the name. */
  ghost predicate Stamps(s: State, s': State, w: nat) {
    && w in s.workers && s.workers[w].Admitted?
    && var Admitted(job, copy, pl) := s.workers[w];
       var found := Find(s.partitions, job.name);
       if found.None? then s' == Stop(s, w)
       else
         var s1 := Write(s, found.value, StampOn(s.partitions[found.value], copy, pl));
         s' == Move(s1, w, Stamped(job, s1.partitions[found.value], pl))
  }

  /** A full update guarded by resource version and by the schema's transition rules. */
  ghost predicate Updates(s: State, s': State, w: nat, retry: bool) {
    && w in s.workers && s.workers[w].Stamped?
    && var Stamped(job, copy, pl) := s.workers[w];
       var found := Find(s.partitions, job.name);
       if found.None? then s' == Stop(s, w)
       else if s.partitions[found.value].version != copy.version then
         // Conflict: retry from the re-read, still holding the lock, or give up.
         s' == if retry then Move(s, w, Locked(job)) else Stop(s, w)
       else if !MayAssign(s.partitions[found.value], copy, pl) then s' == Stop(s, w)
       else s' == Stop(Write(s, found.value, Assigned(s.partitions[found.value], pl)), w)
  }

  /** Size and placement are immutable once set. */
  predicate MayAssign(current: Partition, copy: Partition, pl: Placement) {
    current.size == copy.size && (current.placement.Some? ==> current.placement.value == pl)
  }

  ghost predicate WorkerNext(s: State, s': State, step: Step) {
    match step
    case Begin(w, job) => Begins(s, s', w, job)
    case Acquire(w) => Acquires(s, s', w)
    case ReadPartition(w) => ReadsPartition(s, s', w)
    case ReadDevice(w) => ReadsDevice(s, s', w)
    case ListAndCheck(w) => Lists(s, s', w)
    case StampStatus(w) => Stamps(s, s', w)
    case UpdateSpec(w, retry) => Updates(s, s', w, retry)
    case Abandon(w) => w in s.workers && s' == Stop(s, w)
    case _ => false
  }

  /** Everything else: users, the agents, the device reporter, a manager restart. */
  ghost predicate WorldNext(s: State, s': State, step: Step) {
    match step
    case Restart => s' == s.(workers := map[], locks := map[])
    case Create(p) =>
      && p.placement.None? && p.fingerprint.None? && p.stampedGeneration.None? && !p.deleting
      && Capacity.Allocatable(p.size)
      && Find(s.partitions, p.name).None? && p.uid !in s.uids
      && s' == s.(partitions := s.partitions + [p.(version := s.clock)], clock := s.clock + 1, uids := s.uids + {p.uid})
    case MarkDeleted(k) =>
      k < |s.partitions| && s' == Write(s, k, s.partitions[k].(deleting := true))
    case Remove(k) =>
      k < |s.partitions| && s' == s.(partitions := s.partitions[..k] + s.partitions[k + 1..])
    case TouchStatus(k) =>
      k < |s.partitions| && s' == Write(s, k, s.partitions[k])
    case ChangeDevice(key, d) => s' == s.(devices := s.devices[key := d])
    case Grow(serial, total) => Total(s, serial) <= total && s' == s.(advertised := s.advertised[serial := total])
    case _ => false
  }

  ghost predicate Next(s: State, s': State, step: Step) {
    WorkerNext(s, s', step) || WorldNext(s, s', step)
  }

  ghost predicate WithinCapacity(s: State) {
    forall serial :: Used(s.partitions, serial) <= Total(s, serial)
  }

  /** Initially there may be placed objects of older releases, without fingerprints. */
  ghost predicate Init(s: State) {
    && NamesUnique(s.partitions) && UidsUnique(s) && WithinCapacity(s)
    && s.workers == map[] && s.locks == map[]
    && forall p :: p in s.partitions ==> Capacity.Allocatable(p.size) && p.fingerprint.None? && p.version < s.clock
  }

  ghost predicate UidsUnique(s: State) {
    && (forall i, j :: 0 <= i < j < |s.partitions| ==> s.partitions[i].uid != s.partitions[j].uid)
    && (forall p :: p in s.partitions ==> p.uid in s.uids)
  }

  ghost predicate IsRun(run: seq<State>, steps: seq<Step>) {
    && |run| == |steps| + 1
    && Init(run[0])
    && forall i :: 0 <= i < |steps| ==> Next(run[i], run[i + 1], steps[i])
  }

  // ---------------------------------------------------------------- invariants

  /** Names and UIDs identify objects, and every worker past Acquire owns its lock. */
  ghost predicate Basic(s: State) {
    && NamesUnique(s.partitions)
    && UidsUnique(s)
    && (forall p :: p in s.partitions ==> Capacity.Allocatable(p.size))
    && (forall w :: w in s.workers && !s.workers[w].Chosen? ==>
          s.workers[w].job.serial in s.locks && s.locks[s.workers[w].job.serial] == w)
    && (forall w :: w in s.workers && HasPlacement(s.workers[w]) ==>
          s.workers[w].placement.serial == s.workers[w].job.serial)
  }

  predicate HasPlacement(pc: Worker) {
    pc.HaveDevice? || pc.Admitted? || pc.Stamped?
  }

  lemma WriteKeepsBasic(s: State, k: nat, p: Partition)
    requires Basic(s) && k < |s.partitions|
    requires p.name == s.partitions[k].name && p.uid == s.partitions[k].uid && p.size == s.partitions[k].size
    ensures Basic(Write(s, k, p))
  {
  }

  lemma StopKeepsBasic(s: State, w: nat)
    requires Basic(s) && w in s.workers
    ensures Basic(Stop(s, w))
  {
  }

  lemma MoveKeepsBasic(s: State, w: nat, pc: Worker)
    requires Basic(s) && w in s.workers && !s.workers[w].Chosen?
    requires pc.job.serial == s.workers[w].job.serial
    requires HasPlacement(pc) ==> pc.placement.serial == pc.job.serial
    ensures Basic(Move(s, w, pc))
  {
  }

  lemma StampKeepsBasic(s: State, s': State, w: nat)
    requires Basic(s) && Stamps(s, s', w)
    ensures Basic(s')
  {
    StopKeepsBasic(s, w);
    var Admitted(job, copy, pl) := s.workers[w];
    var found := Find(s.partitions, job.name);
    if found.Some? {
      var stamped := StampOn(s.partitions[found.value], copy, pl);
      WriteKeepsBasic(s, found.value, stamped);
      var s1 := Write(s, found.value, stamped);
      MoveKeepsBasic(s1, w, Stamped(job, s1.partitions[found.value], pl));
    }
  }

  lemma UpdateKeepsBasic(s: State, s': State, w: nat, retry: bool)
    requires Basic(s) && Updates(s, s', w, retry)
    ensures Basic(s')
  {
    var Stamped(job, copy, pl) := s.workers[w];
    StopKeepsBasic(s, w);
    MoveKeepsBasic(s, w, Locked(job));
    var found := Find(s.partitions, job.name);
    if found.Some? {
      var updated := Assigned(s.partitions[found.value], pl);
      WriteKeepsBasic(s, found.value, updated);
      StopKeepsBasic(Write(s, found.value, updated), w);
    }
  }

  lemma ReadKeepsBasic(s: State, s': State, w: nat)
    requires Basic(s) && (ReadsPartition(s, s', w) || ReadsDevice(s, s', w) || Lists(s, s', w))
    ensures Basic(s')
  {
    StopKeepsBasic(s, w);
    if w in s'.workers {
      MoveKeepsBasic(s, w, s'.workers[w]);
    }
  }

  lemma WorkerKeepsBasic(s: State, s': State, step: Step)
    requires Basic(s) && WorkerNext(s, s', step)
    ensures Basic(s')
  {
    match step
    case Begin(w, job) =>
    case Acquire(w) =>
    case ReadPartition(w) => ReadKeepsBasic(s, s', w);
    case ReadDevice(w) => ReadKeepsBasic(s, s', w);
    case ListAndCheck(w) => ReadKeepsBasic(s, s', w);
    case StampStatus(w) => StampKeepsBasic(s, s', w);
    case UpdateSpec(w, retry) => UpdateKeepsBasic(s, s', w, retry);
    case Abandon(w) => StopKeepsBasic(s, w);
  }

  lemma CreateKeepsBasic(s: State, s': State, p: Partition)
    requires Basic(s) && WorldNext(s, s', Create(p))
    ensures Basic(s')
  {
    var last := |s.partitions|;
    assert s'.partitions[last] == p.(version := s.clock);
    assert forall q :: q in s'.partitions ==> q in s.partitions || q == s'.partitions[last];
  }

  lemma RemoveKeepsBasic(s: State, s': State, k: nat)
    requires Basic(s) && WorldNext(s, s', Remove(k))
    ensures Basic(s')
  {
    assert forall q :: q in s'.partitions ==> q in s.partitions;
    assert forall i :: 0 <= i < |s'.partitions| ==> s'.partitions[i] == s.partitions[if i < k then i else i + 1];
  }

  lemma WorldKeepsBasic(s: State, s': State, step: Step)
    requires Basic(s) && WorldNext(s, s', step)
    ensures Basic(s')
  {
    match step
    case Create(p) => CreateKeepsBasic(s, s', p);
    case Remove(k) => RemoveKeepsBasic(s, s', k);
    case MarkDeleted(k) => WriteKeepsBasic(s, k, s.partitions[k].(deleting := true));
    case TouchStatus(k) => WriteKeepsBasic(s, k, s.partitions[k]);
    case _ =>
  }

  lemma StepKeepsBasic(s: State, s': State, step: Step)
    requires Basic(s) && Next(s, s', step)
    ensures Basic(s')
  {
    if WorkerNext(s, s', step) {
      WorkerKeepsBasic(s, s', step);
    } else {
      WorldKeepsBasic(s, s', step);
    }
  }

  /** Names being unique, a name leads to its one object. */
  lemma FindIsUnique(s: State, k: nat, name: string)
    requires Basic(s) && k < |s.partitions| && s.partitions[k].name == name
    ensures Find(s.partitions, name) == Some(k)
  {
    assert s.partitions[k] in s.partitions;
    var found := Find(s.partitions, name).value;
    assert found == k;
  }

  predicate HasCopy(pc: Worker) {
    !pc.Chosen? && !pc.Locked?
  }

  /** Resource versions in use are older than the clock, copies are of objects that existed, and
      every lock has its worker. */
  ghost predicate Tracked(s: State) {
    && (forall p :: p in s.partitions ==> p.version < s.clock)
    && (forall w :: w in s.workers && HasCopy(s.workers[w]) ==>
          s.workers[w].copy.version < s.clock && s.workers[w].copy.uid in s.uids)
    && (forall serial :: serial in s.locks ==>
          && s.locks[serial] in s.workers
          && !s.workers[s.locks[serial]].Chosen? && s.workers[s.locks[serial]].job.serial == serial)
  }

  lemma StopKeepsTracked(s: State, w: nat)
    requires Basic(s) && Tracked(s) && w in s.workers
    ensures Tracked(Stop(s, w))
  {
  }

  lemma MoveKeepsTracked(s: State, w: nat, pc: Worker)
    requires Tracked(s) && w in s.workers && !s.workers[w].Chosen? && !pc.Chosen?
    requires pc.job.serial == s.workers[w].job.serial
    requires HasCopy(pc) ==> pc.copy.version < s.clock && pc.copy.uid in s.uids
    ensures Tracked(Move(s, w, pc))
  {
  }

  lemma ReadKeepsTracked(s: State, s': State, w: nat)
    requires Basic(s) && Tracked(s) && (ReadsPartition(s, s', w) || ReadsDevice(s, s', w) || Lists(s, s', w))
    ensures Tracked(s')
  {
    StopKeepsTracked(s, w);
    if w in s'.workers {
      MoveKeepsTracked(s, w, s'.workers[w]);
    }
  }

  lemma StampKeepsTracked(s: State, s': State, w: nat)
    requires Basic(s) && Tracked(s) && Stamps(s, s', w)
    ensures Tracked(s')
  {
    StopKeepsTracked(s, w);
    var Admitted(job, copy, pl) := s.workers[w];
    var found := Find(s.partitions, job.name);
    if found.Some? {
      assert s.partitions[found.value] in s.partitions;
      var s1 := Write(s, found.value, StampOn(s.partitions[found.value], copy, pl));
      MoveKeepsTracked(s1, w, Stamped(job, s1.partitions[found.value], pl));
    }
  }

  lemma UpdateKeepsTracked(s: State, s': State, w: nat, retry: bool)
    requires Basic(s) && Tracked(s) && Updates(s, s', w, retry)
    ensures Tracked(s')
  {
    var Stamped(job, copy, pl) := s.workers[w];
    StopKeepsTracked(s, w);
    MoveKeepsTracked(s, w, Locked(job));
    var found := Find(s.partitions, job.name);
    if found.Some? {
      var updated := Assigned(s.partitions[found.value], pl);
      WriteKeepsBasic(s, found.value, updated);
      StopKeepsTracked(Write(s, found.value, updated), w);
    }
  }

  lemma WorkerKeepsTracked(s: State, s': State, step: Step)
    requires Basic(s) && Tracked(s) && WorkerNext(s, s', step)
    ensures Tracked(s')
  {
    match step
    case Begin(w, job) =>
    case Acquire(w) =>
    case ReadPartition(w) => ReadKeepsTracked(s, s', w);
    case ReadDevice(w) => ReadKeepsTracked(s, s', w);
    case ListAndCheck(w) => ReadKeepsTracked(s, s', w);
    case StampStatus(w) => StampKeepsTracked(s, s', w);
    case UpdateSpec(w, retry) => UpdateKeepsTracked(s, s', w, retry);
    case Abandon(w) => StopKeepsTracked(s, w);
  }

  lemma WorldKeepsTracked(s: State, s': State, step: Step)
    requires Tracked(s) && WorldNext(s, s', step)
    ensures Tracked(s')
  {
  }

  lemma StepKeepsTracked(s: State, s': State, step: Step)
    requires Basic(s) && Tracked(s) && Next(s, s', step)
    ensures Tracked(s')
  {
    if WorkerNext(s, s', step) {
      WorkerKeepsTracked(s, s', step);
    } else {
      WorldKeepsTracked(s, s', step);
    }
  }

  // ---------------------------------------------------------------- no oversubscription

  /** A worker past the capacity check has room set aside, as long as it keeps its lock. */
  ghost predicate Reserved(s: State) {
    forall w :: w in s.workers && (s.workers[w].Admitted? || s.workers[w].Stamped?) ==>
      Used(s.partitions, s.workers[w].job.serial) + s.workers[w].job.requested <= Total(s, s.workers[w].job.serial)
  }

  /** No object a worker may assign is larger than what the worker asked room for. */
  ghost predicate Covered(s: State) {
    && (forall w, p :: w in s.workers && p in s.partitions && p.name == s.workers[w].job.name ==>
          Capacity.Rounded(p.size) <= s.workers[w].job.requested)
    && (forall w :: w in s.workers && HasCopy(s.workers[w]) ==>
          Capacity.Rounded(s.workers[w].copy.size) <= s.workers[w].job.requested)
  }

  ghost predicate Sound(s: State) {
    Basic(s) && WithinCapacity(s) && Reserved(s) && Covered(s)
  }

  /** The condition under which the capacity check is about the right object: a name that a
      worker is reserving for is not given to a new, larger partition. */
  ghost predicate ReuseSafe(s: State, step: Step) {
    step.Create? ==>
      forall w :: w in s.workers && s.workers[w].job.name == step.p.name ==>
        Capacity.Rounded(step.p.size) <= s.workers[w].job.requested
  }

  lemma WriteKeepsBooks(s: State, k: nat, p: Partition)
    requires k < |s.partitions| && p.size == s.partitions[k].size && p.placement == s.partitions[k].placement
    ensures forall serial :: Used(Write(s, k, p).partitions, serial) == Used(s.partitions, serial)
  {
    forall serial
      ensures Used(Write(s, k, p).partitions, serial) == Used(s.partitions, serial)
    {
      UsedUpdate(s.partitions, k, p.(version := s.clock), serial);
    }
  }

  lemma WriteKeepsSound(s: State, k: nat, p: Partition)
    requires Sound(s) && k < |s.partitions|
    requires p.name == s.partitions[k].name && p.uid == s.partitions[k].uid
    requires p.size == s.partitions[k].size && p.placement == s.partitions[k].placement
    ensures Sound(Write(s, k, p))
  {
    WriteKeepsBasic(s, k, p);
    WriteKeepsBooks(s, k, p);
  }

  lemma StopKeepsSound(s: State, w: nat)
    requires Sound(s) && w in s.workers
    ensures Sound(Stop(s, w))
  {
    StopKeepsBasic(s, w);
  }

  lemma MoveKeepsSound(s: State, w: nat, pc: Worker)
    requires Sound(s) && w in s.workers && !s.workers[w].Chosen?
    requires pc.job == s.workers[w].job
    requires HasPlacement(pc) ==> pc.placement.serial == pc.job.serial
    requires HasCopy(pc) ==> Capacity.Rounded(pc.copy.size) <= pc.job.requested
    requires pc.Admitted? || pc.Stamped? ==>
               Used(s.partitions, pc.job.serial) + pc.job.requested <= Total(s, pc.job.serial)
    ensures Sound(Move(s, w, pc))
  {
    MoveKeepsBasic(s, w, pc);
  }

  lemma ReadKeepsSound(s: State, s': State, w: nat)
    requires Sound(s) && (ReadsPartition(s, s', w) || ReadsDevice(s, s', w) || Lists(s, s', w))
    ensures Sound(s')
  {
    StopKeepsSound(s, w);
    if w in s'.workers {
      MoveKeepsSound(s, w, s'.workers[w]);
    }
  }

  lemma StampKeepsSound(s: State, s': State, w: nat)
    requires Sound(s) && Stamps(s, s', w)
    ensures Sound(s')
  {
    StopKeepsSound(s, w);
    var Admitted(job, copy, pl) := s.workers[w];
    var found := Find(s.partitions, job.name);
    if found.Some? {
      var stamped := StampOn(s.partitions[found.value], copy, pl);
      WriteKeepsSound(s, found.value, stamped);
      WriteKeepsBooks(s, found.value, stamped);
      var s1 := Write(s, found.value, stamped);
      MoveKeepsSound(s1, w, Stamped(job, s1.partitions[found.value], pl));
    }
  }

  /** The assignment itself: the list is older than the update, but the lock of the serial
      has kept every other assignment to the device out in between. */
  lemma AssignKeepsSound(s: State, w: nat, k: nat)
    requires Sound(s) && w in s.workers && s.workers[w].Stamped? && k < |s.partitions|
    requires s.partitions[k].name == s.workers[w].job.name
    requires MayAssign(s.partitions[k], s.workers[w].copy, s.workers[w].placement)
    ensures Sound(Stop(Write(s, k, Assigned(s.partitions[k], s.workers[w].placement)), w))
  {
    var Stamped(job, copy, pl) := s.workers[w];
    var updated := Assigned(s.partitions[k], pl);
    var s1 := Write(s, k, updated);
    WriteKeepsBasic(s, k, updated);
    StopKeepsBasic(s1, w);
    forall serial
      ensures serial != job.serial ==> Used(s1.partitions, serial) == Used(s.partitions, serial)
      ensures serial == job.serial ==> Used(s1.partitions, serial) <= Used(s.partitions, serial) + job.requested
      ensures Used(s1.partitions, serial) <= Total(s1, serial)
    {
      UsedUpdate(s.partitions, k, updated.(version := s.clock), serial);
    }
    var s' := Stop(s1, w);
    forall v | v in s'.workers && (s'.workers[v].Admitted? || s'.workers[v].Stamped?)
      ensures s'.workers[v].job.serial != job.serial
    {
      assert v in s.workers && v != w;
    }
  }

  lemma UpdateKeepsSound(s: State, s': State, w: nat, retry: bool)
    requires Sound(s) && Updates(s, s', w, retry)
    ensures Sound(s')
  {
    var Stamped(job, copy, pl) := s.workers[w];
    StopKeepsSound(s, w);
    MoveKeepsSound(s, w, Locked(job));
    var found := Find(s.partitions, job.name);
    if found.Some? && MayAssign(s.partitions[found.value], copy, pl) {
      AssignKeepsSound(s, w, found.value);
    }
  }

  lemma BeginKeepsSound(s: State, s': State, w: nat, job: Job)
    requires Sound(s) && Begins(s, s', w, job)
    ensures Sound(s')
  {
  }

  lemma WorkerKeepsSound(s: State, s': State, step: Step)
    requires Sound(s) && WorkerNext(s, s', step)
    ensures Sound(s')
  {
    match step
    case Begin(w, job) => BeginKeepsSound(s, s', w, job);
    case Acquire(w) => WorkerKeepsBasic(s, s', step);
    case ReadPartition(w) => ReadKeepsSound(s, s', w);
    case ReadDevice(w) => ReadKeepsSound(s, s', w);
    case ListAndCheck(w) => ReadKeepsSound(s, s', w);
    case StampStatus(w) => StampKeepsSound(s, s', w);
    case UpdateSpec(w, retry) => UpdateKeepsSound(s, s', w, retry);
    case Abandon(w) => StopKeepsSound(s, w);
  }

  lemma RemovalFreesRoom(ps: seq<Partition>, k: nat, serial: GoString)
    requires k < |ps| && Capacity.Allocatable(ps[k].size)
    ensures Used(ps[..k] + ps[k + 1..], serial) <= Used(ps, serial)
  {
    UsedSplit(ps, k, serial);
    UsedConcat(ps[..k], ps[k + 1..], serial);
  }

  lemma CreateKeepsSound(s: State, s': State, p: Partition)
    requires Sound(s) && WorldNext(s, s', Create(p)) && ReuseSafe(s, Create(p))
    ensures Sound(s')
  {
    WorldKeepsBasic(s, s', Create(p));
    forall serial
      ensures Used(s'.partitions, serial) == Used(s.partitions, serial)
    {
      UsedConcat(s.partitions, [p.(version := s.clock)], serial);
    }
  }

  lemma RemoveKeepsSound(s: State, s': State, k: nat)
    requires Sound(s) && WorldNext(s, s', Remove(k))
    ensures Sound(s')
  {
    WorldKeepsBasic(s, s', Remove(k));
    forall serial
      ensures Used(s'.partitions, serial) <= Used(s.partitions, serial)
      ensures Used(s'.partitions, serial) <= Total(s', serial)
    {
      RemovalFreesRoom(s.partitions, k, serial);
    }
  }

  lemma WorldKeepsSound(s: State, s': State, step: Step)
    requires Sound(s) && WorldNext(s, s', step) && ReuseSafe(s, step)
    ensures Sound(s')
  {
    match step
    case Create(p) => CreateKeepsSound(s, s', p);
    case Remove(k) => RemoveKeepsSound(s, s', k);
    case MarkDeleted(k) => WriteKeepsSound(s, k, s.partitions[k].(deleting := true));
    case TouchStatus(k) => WriteKeepsSound(s, k, s.partitions[k]);
    case _ => WorldKeepsBasic(s, s', step);
  }

  /** Under every interleaving of reservations, conflicts, retries and deletions in which
      names under reservation are not reused for larger partitions, no device is ever
      oversubscribed. */
  lemma {:induction false} NeverOversubscribed(run: seq<State>, steps: seq<Step>, i: nat)
    requires IsRun(run, steps) && i < |run|
    requires forall j :: 0 <= j < i ==> ReuseSafe(run[j], steps[j])
    ensures Sound(run[i])
    ensures forall serial :: Used(run[i].partitions, serial) <= Total(run[i], serial)
  {
    if i > 0 {
      NeverOversubscribed(run, steps, i - 1);
      assert Next(run[i - 1], run[(i - 1) + 1], steps[i - 1]);
      if WorkerNext(run[i - 1], run[i], steps[i - 1]) {
        WorkerKeepsSound(run[i - 1], run[i], steps[i - 1]);
      } else {
        WorldKeepsSound(run[i - 1], run[i], steps[i - 1]);
      }
    }
  }

  // ---------------------------------------------------------------- the name-reuse race

  // The states of one run in which partition "a" is deleted and recreated three times as
  // large while a worker is reserving for the first "a" on a device of two units.
  const RACE_JOB := Job("a", "d", [7], Capacity.UNIT)
  const RACE_DEVICE := Device([7], [8], ClaimRef([9], [9], [9]), true)
  const SMALL := Partition("a", [1], Capacity.UNIT, 0, 1, false, None, None, None)
  const BIG := Partition("a", [2], 3 * Capacity.UNIT, 1, 1, false, None, None, None)

  function RaceState(ps: seq<Partition>, clock: nat, locked: bool, pc: Option<Worker>): State {
    State(ps, map["d" := RACE_DEVICE], map[[7] := 2 * Capacity.UNIT],
          if locked then map[[7] := 0] else map[],
          if pc.Some? then map[0 := pc.value] else map[],
          clock, if clock == 1 then {[1]} else {[1], [2]})
  }

  const STAMPED := StampOn(BIG, BIG, PlacementOn(RACE_DEVICE)).(version := 2)
  const PLACED := Assigned(STAMPED, PlacementOn(RACE_DEVICE)).(version := 3)

  function RaceAt(i: int): State {
    match i
    case 0 => RaceState([SMALL], 1, false, None)
    case 1 => RaceState([SMALL], 1, false, Some(Chosen(RACE_JOB)))
    case 2 => RaceState([], 1, false, Some(Chosen(RACE_JOB)))
    case 3 => RaceState([BIG], 2, false, Some(Chosen(RACE_JOB)))
    case 4 => RaceState([BIG], 2, true, Some(Locked(RACE_JOB)))
    case 5 => RaceState([BIG], 2, true, Some(HavePartition(RACE_JOB, BIG)))
    case 6 => RaceState([BIG], 2, true, Some(HaveDevice(RACE_JOB, BIG, PlacementOn(RACE_DEVICE))))
    case 7 => RaceState([BIG], 2, true, Some(Admitted(RACE_JOB, BIG, PlacementOn(RACE_DEVICE))))
    case 8 => RaceState([STAMPED], 3, true, Some(Stamped(RACE_JOB, STAMPED, PlacementOn(RACE_DEVICE))))
    case _ => RaceState([PLACED], 4, false, None)
  }

  function RaceStepAt(i: int): Step {
    match i
    case 0 => Begin(0, RACE_JOB)
    case 1 => Remove(0)
    case 2 => Create(BIG)
    case 3 => Acquire(0)
    case 4 => ReadPartition(0)
    case 5 => ReadDevice(0)
    case 6 => ListAndCheck(0)
    case 7 => StampStatus(0)
    case _ => UpdateSpec(0, false)
  }

  lemma RaceInit()
    ensures Init(RaceAt(0))
  {
    var s := RaceAt(0);
    forall serial ensures Used(s.partitions, serial) <= Total(s, serial) {
      assert s.partitions[1..] == [];
    }
  }

  lemma RaceBegins()
    ensures Next(RaceAt(0), RaceAt(1), RaceStepAt(0))
  {
    assert SMALL in [SMALL];
    assert Begins(RaceAt(0), RaceAt(1), 0, RACE_JOB);
  }

  lemma RaceDeletes()
    ensures Next(RaceAt(1), RaceAt(2), RaceStepAt(1))
  {
    assert [SMALL][..0] + [SMALL][1..] == [];
    assert WorldNext(RaceAt(1), RaceAt(2), Remove(0));
  }

  lemma RaceRecreates()
    ensures Next(RaceAt(2), RaceAt(3), RaceStepAt(2))
  {
    assert WorldNext(RaceAt(2), RaceAt(3), Create(BIG));
  }

  lemma RaceLocks()
    ensures Next(RaceAt(3), RaceAt(4), RaceStepAt(3))
  {
    assert Acquires(RaceAt(3), RaceAt(4), 0);
  }

  lemma RaceRereads()
    ensures Next(RaceAt(4), RaceAt(5), RaceStepAt(4))
  {
    assert Find([BIG], RACE_JOB.name) == Some(0);
    assert ReadsPartition(RaceAt(4), RaceAt(5), 0);
  }

  lemma RaceFindsDevice()
    ensures Next(RaceAt(5), RaceAt(6), RaceStepAt(5))
  {
    assert ReadsDevice(RaceAt(5), RaceAt(6), 0);
  }

  lemma RacePasses()
    ensures Next(RaceAt(6), RaceAt(7), RaceStepAt(6))
  {
    assert [BIG][1..] == [];
    assert Used([BIG], [7]) == 0;
    assert Lists(RaceAt(6), RaceAt(7), 0);
  }

  lemma RaceStamps()
    ensures Next(RaceAt(7), RaceAt(8), RaceStepAt(7))
  {
    assert [BIG][0 := STAMPED] == [STAMPED];
    assert Find([BIG], RACE_JOB.name) == Some(0);
    assert Stamps(RaceAt(7), RaceAt(8), 0);
  }

  lemma RaceAssigns()
    ensures Next(RaceAt(8), RaceAt(9), RaceStepAt(8))
  {
    assert [STAMPED][0 := PLACED] == [PLACED];
    assert Find([STAMPED], RACE_JOB.name) == Some(0);
    assert Updates(RaceAt(8), RaceAt(9), 0, false);
  }

  lemma RaceStep(i: nat)
    requires i < 9
    ensures Next(RaceAt(i), RaceAt(i + 1), RaceStepAt(i))
  {
    match i
    case 0 => RaceBegins();
    case 1 => RaceDeletes();
    case 2 => RaceRecreates();
    case 3 => RaceLocks();
    case 4 => RaceRereads();
    case 5 => RaceFindsDevice();
    case 6 => RacePasses();
    case 7 => RaceStamps();
    case _ => RaceAssigns();
  }

  lemma RaceOutcome()
    ensures Used(RaceAt(9).partitions, [7]) > Total(RaceAt(9), [7])
    ensures !ReuseSafe(RaceAt(2), RaceStepAt(2))
  {
    assert [PLACED][1..] == [];
    assert RaceAt(2).workers[0].job.name == BIG.name;
  }

  /** So reusing a name under reservation can oversubscribe a device: this run does. */
  lemma NameReuseOversubscribes()
    ensures exists run: seq<State>, steps: seq<Step> :: IsRun(run, steps) && !WithinCapacity(run[|steps|])
  {
    RaceInit();
    RaceOutcome();
    var run, steps := seq(10, i => RaceAt(i)), seq(9, i => RaceStepAt(i));
    forall i | 0 <= i < |steps| ensures Next(run[i], run[i + 1], steps[i]) {
      RaceStep(i);
    }
    assert IsRun(run, steps);
  }

  // ---------------------------------------------------------------- placements

  lemma {:induction false} RunKeepsBasic(run: seq<State>, steps: seq<Step>, i: nat)
    requires IsRun(run, steps) && i < |run|
    ensures Basic(run[i]) && Tracked(run[i])
  {
    if i > 0 {
      RunKeepsBasic(run, steps, i - 1);
      assert Next(run[i - 1], run[(i - 1) + 1], steps[i - 1]);
      StepKeepsBasic(run[i - 1], run[i], steps[i - 1]);
      StepKeepsTracked(run[i - 1], run[i], steps[i - 1]);
    }
  }

  /** Every object with UID `uid` is placed at `pl`, and the UID is never issued again. */
  ghost predicate PlacedAt(s: State, uid: GoString, pl: Placement) {
    uid in s.uids && forall p :: p in s.partitions && p.uid == uid ==> p.placement == Some(pl)
  }

  lemma UpdateKeepsPlacement(s: State, s': State, w: nat, retry: bool, uid: GoString, pl: Placement)
    requires Updates(s, s', w, retry) && PlacedAt(s, uid, pl)
    ensures PlacedAt(s', uid, pl)
  {
    var found := Find(s.partitions, s.workers[w].job.name);
    if found.Some? {
      assert s.partitions[found.value] in s.partitions;
    }
  }

  lemma StampKeepsPlacement(s: State, s': State, w: nat, uid: GoString, pl: Placement)
    requires Stamps(s, s', w) && PlacedAt(s, uid, pl)
    ensures PlacedAt(s', uid, pl)
  {
    var found := Find(s.partitions, s.workers[w].job.name);
    if found.Some? {
      assert s.partitions[found.value] in s.partitions;
    }
  }

  lemma StepKeepsPlacement(s: State, s': State, step: Step, uid: GoString, pl: Placement)
    requires Next(s, s', step) && PlacedAt(s, uid, pl)
    ensures PlacedAt(s', uid, pl)
  {
    match step
    case StampStatus(w) => StampKeepsPlacement(s, s', w, uid, pl);
    case UpdateSpec(w, retry) => UpdateKeepsPlacement(s, s', w, retry, uid, pl);
    case MarkDeleted(k) => assert s.partitions[k] in s.partitions;
    case TouchStatus(k) => assert s.partitions[k] in s.partitions;
    case Remove(k) =>
    case Create(p) =>
    case _ => assert s'.partitions == s.partitions;
  }

  /** However many attempts race, a partition that has a placement keeps it for life. */
  lemma {:induction false} PlacementNeverChanges(run: seq<State>, steps: seq<Step>, i: nat, j: nat, p: Partition, q: Partition)
    requires IsRun(run, steps) && i <= j < |run|
    requires p in run[i].partitions && p.placement.Some?
    requires q in run[j].partitions && q.uid == p.uid
    ensures q.placement == p.placement
  {
    RunKeepsBasic(run, steps, i);
    assert PlacedAt(run[i], p.uid, p.placement.value) by {
      forall r | r in run[i].partitions && r.uid == p.uid ensures r == p {
        var a :| 0 <= a < |run[i].partitions| && run[i].partitions[a] == r;
        var b :| 0 <= b < |run[i].partitions| && run[i].partitions[b] == p;
      }
    }
    PlacementCarries(run, steps, i, j, p.uid, p.placement.value);
  }

  lemma PlacementCarriesOne(run: seq<State>, steps: seq<Step>, j: nat, uid: GoString, pl: Placement)
    requires IsRun(run, steps) && j < |steps| && PlacedAt(run[j], uid, pl)
    ensures PlacedAt(run[j + 1], uid, pl)
  {
    StepKeepsPlacement(run[j], run[j + 1], steps[j], uid, pl);
  }

  lemma {:induction false} PlacementCarries(run: seq<State>, steps: seq<Step>, i: nat, j: nat, uid: GoString, pl: Placement)
    requires IsRun(run, steps) && i <= j < |run| && PlacedAt(run[i], uid, pl)
    ensures PlacedAt(run[j], uid, pl)
    decreases j - i
  {
    if i < j {
      PlacementCarriesOne(run, steps, i, uid, pl);
      PlacementCarries(run, steps, i + 1, j, uid, pl);
    }
  }

  // ---------------------------------------------------------------- authorization

  /** placementauth.IsAuthorized, the agent's gate for a first provisioning. */
  predicate IsAuthorized(p: Partition) {
    && p.stampedGeneration == Some(p.generation)
    && p.placement.Some?
    && var pl := p.placement.value;
       var expected := FingerprintOf(p.uid, pl.node, pl.serial, Some(pl.claim));
       expected.Some? && p.fingerprint == expected
  }

  /** At step `j` a worker that had passed the capacity check for `uid` stamped `pl`. */
  ghost predicate StampedFor(run: seq<State>, steps: seq<Step>, j: nat, uid: GoString, pl: Placement) {
    && j < |steps| && j < |run| && steps[j].StampStatus?
    && steps[j].w in run[j].workers
    && var pc := run[j].workers[steps[j].w];
       pc.Admitted? && pc.copy.uid == uid && pc.placement == pl
  }

  lemma OtherStepsKeepFingerprints(s: State, s': State, step: Step, p: Partition)
    requires Next(s, s', step) && !step.StampStatus? && p in s'.partitions && p.fingerprint.Some?
    ensures exists q :: q in s.partitions && q.fingerprint == p.fingerprint
  {
    match step
    case UpdateSpec(w, retry) =>
      var found := Find(s.partitions, s.workers[w].job.name);
      if found.Some? {
        assert s.partitions[found.value] in s.partitions;
      }
    case MarkDeleted(k) => assert s.partitions[k] in s.partitions;
    case TouchStatus(k) => assert s.partitions[k] in s.partitions;
    case Remove(k) =>
    case Create(_) =>
    case StampStatus(_) =>
    case _ => assert s'.partitions == s.partitions;
  }

  lemma NewFingerprintIsStamped(s: State, s': State, step: Step, p: Partition)
    requires Next(s, s', step) && p in s'.partitions && p.fingerprint.Some?
    ensures (exists q :: q in s.partitions && q.fingerprint == p.fingerprint)
            || (step.StampStatus? && step.w in s.workers && s.workers[step.w].Admitted?
                && var Admitted(_, copy, pl) := s.workers[step.w];
                   p.fingerprint == FingerprintOf(copy.uid, pl.node, pl.serial, Some(pl.claim)))
  {
    if !step.StampStatus? {
      OtherStepsKeepFingerprints(s, s', step, p);
    }
  }

  lemma {:induction false} FingerprintOrigin(run: seq<State>, steps: seq<Step>, i: nat, p: Partition)
    returns (j: nat, uid: GoString, pl: Placement)
    requires IsRun(run, steps) && i < |run| && p in run[i].partitions && p.fingerprint.Some?
    ensures j < i && StampedFor(run, steps, j, uid, pl)
    ensures p.fingerprint == FingerprintOf(uid, pl.node, pl.serial, Some(pl.claim))
  {
    assert i > 0;
    assert Next(run[i - 1], run[(i - 1) + 1], steps[i - 1]);
    NewFingerprintIsStamped(run[i - 1], run[i], steps[i - 1], p);
    if q :| q in run[i - 1].partitions && q.fingerprint == p.fingerprint {
      j, uid, pl := FingerprintOrigin(run, steps, i - 1, q);
    } else {
      var pc := run[i - 1].workers[steps[i - 1].w];
      j, uid, pl := i - 1, pc.copy.uid, pc.placement;
    }
  }

  /** A partition that passes the fingerprint check was stamped by the manager for exactly its UID,
      node, device serial and claim, after the manager's capacity check for that same UID. */
  lemma AuthorizedWasStamped(run: seq<State>, steps: seq<Step>, i: nat, p: Partition) returns (j: nat)
    requires IsRun(run, steps) && i < |run| && p in run[i].partitions && IsAuthorized(p)
    ensures j < i && StampedFor(run, steps, j, p.uid, p.placement.value)
  {
    var uid, pl;
    j, uid, pl := FingerprintOrigin(run, steps, i, p);
    var own := p.placement.value;
    FingerprintBindsPlacement(p.uid, own.node, own.serial, Some(own.claim), uid, pl.node, pl.serial, Some(pl.claim));
  }
}
