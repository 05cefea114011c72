/**
 Reservations can succeed: a worker that is left alone places a partition that fits, and stamps it
 so that the agent accepts it.
 */
module ReservationProgress {
  import opened Options
  import opened Bytes
  import opened PlacementAuth
  import opened Reservation
  import opened Runs
  import Capacity

  ghost predicate IsPath(path: seq<State>, steps: seq<Step>) {
    |path| == |steps| + 1 && forall i :: 0 <= i < |steps| ==> Next(path[i], path[i + 1], steps[i])
  }

  lemma Extended(path: seq<State>, steps: seq<Step>, s': State, step: Step) returns (path': seq<State>, steps': seq<Step>)
    requires IsPath(path, steps) && Next(Last(path), s', step)
    ensures IsPath(path', steps') && path' == path + [s'] && steps' == steps + [step]
  {
    path', steps' := path + [s'], steps + [step];
    forall i | 0 <= i < |steps'|
      ensures Next(path'[i], path'[i + 1], steps'[i])
    {
      if i < |steps| {
        assert Next(path[i], path[i + 1], steps[i]);
      }
    }
  }

  /** Partition `k` is unplaced and live, an eligible device has room for it, and its lock is free. */
  ghost predicate Reservable(s: State, w: nat, k: nat, key: string) {
    && Basic(s) && w !in s.workers && k < |s.partitions|
    && s.partitions[k].placement.None? && !s.partitions[k].deleting
    && key in s.devices && s.devices[key].eligible && s.devices[key].serial !in s.locks
    && Used(s.partitions, s.devices[key].serial) <= Capacity.MAX_INT64
    && Used(s.partitions, s.devices[key].serial) + Capacity.Rounded(s.partitions[k].size) <= Total(s, s.devices[key].serial)
  }

  function JobFor(s: State, k: nat, key: string): Job
    requires k < |s.partitions| && key in s.devices
  {
    Job(s.partitions[k].name, key, s.devices[key].serial, Capacity.Rounded(s.partitions[k].size))
  }

  /** The state in which worker `w` holds its lock and is at `pc`. */
  function At(s: State, w: nat, pc: Worker): State {
    s.(workers := s.workers[w := pc], locks := s.locks[pc.job.serial := w])
  }

  lemma LocksIt(s: State, w: nat, k: nat, key: string) returns (path: seq<State>, steps: seq<Step>)
    requires Reservable(s, w, k, key)
    ensures IsPath(path, steps) && path[0] == s && Last(path) == At(s, w, Locked(JobFor(s, k, key)))
    ensures steps == [Begin(w, JobFor(s, k, key)), Acquire(w)]
  {
    var job := JobFor(s, k, key);
    assert s.partitions[k] in s.partitions;
    assert Begins(s, Move(s, w, Chosen(job)), w, job);
    path, steps := Extended([s], [], Move(s, w, Chosen(job)), Begin(w, job));
    assert Acquires(Last(path), At(s, w, Locked(job)), w);
    path, steps := Extended(path, steps, At(s, w, Locked(job)), Acquire(w));
  }

  lemma ReadsIt(s: State, w: nat, k: nat, key: string)
    requires Reservable(s, w, k, key)
    ensures var job, p := JobFor(s, k, key), s.partitions[k];
            ReadsPartition(At(s, w, Locked(job)), At(s, w, HavePartition(job, p)), w)
  {
    FindIsUnique(s, k, s.partitions[k].name);
  }

  lemma ChecksIt(s: State, w: nat, k: nat, key: string)
    requires Reservable(s, w, k, key)
    ensures var job, p, pl := JobFor(s, k, key), s.partitions[k], PlacementOn(s.devices[key]);
            && ReadsDevice(At(s, w, HavePartition(job, p)), At(s, w, HaveDevice(job, p, pl)), w)
            && Lists(At(s, w, HaveDevice(job, p, pl)), At(s, w, Admitted(job, p, pl)), w)
  {
  }

  /** Under its lock the worker reads the partition and the device and passes the capacity check. */
  lemma Checked(s: State, w: nat, k: nat, key: string) returns (path: seq<State>, steps: seq<Step>)
    requires Reservable(s, w, k, key)
    ensures IsPath(path, steps) && path[0] == s
    ensures Last(path) == At(s, w, Admitted(JobFor(s, k, key), s.partitions[k], PlacementOn(s.devices[key])))
    ensures steps == [Begin(w, JobFor(s, k, key)), Acquire(w), ReadPartition(w), ReadDevice(w), ListAndCheck(w)]
  {
    var job, p, pl := JobFor(s, k, key), s.partitions[k], PlacementOn(s.devices[key]);
    path, steps := LocksIt(s, w, k, key);
    ReadsIt(s, w, k, key);
    ChecksIt(s, w, k, key);
    path, steps := Extended(path, steps, At(s, w, HavePartition(job, p)), ReadPartition(w));
    path, steps := Extended(path, steps, At(s, w, HaveDevice(job, p, pl)), ReadDevice(w));
    path, steps := Extended(path, steps, At(s, w, Admitted(job, p, pl)), ListAndCheck(w));
  }

  /** What the reservation leaves in the place of the partition. */
  function Reserved(s: State, k: nat, key: string): Partition
    requires k < |s.partitions| && key in s.devices
  {
    var p, pl := s.partitions[k], PlacementOn(s.devices[key]);
    Assigned(StampOn(p, p, pl), pl).(version := s.clock + 1)
  }

  lemma StampsIt(s: State, w: nat, k: nat, key: string) returns (s1: State)
    requires Reservable(s, w, k, key)
    ensures var p, pl := s.partitions[k], PlacementOn(s.devices[key]);
            var before := At(s, w, Admitted(JobFor(s, k, key), p, pl));
            var stamped := StampOn(p, p, pl).(version := s.clock);
            && s1 == At(s.(partitions := s.partitions[k := stamped], clock := s.clock + 1), w, Stamped(JobFor(s, k, key), stamped, pl))
            && Stamps(before, s1, w)
  {
    var p, pl := s.partitions[k], PlacementOn(s.devices[key]);
    FindIsUnique(s, k, p.name);
    var stamped := StampOn(p, p, pl).(version := s.clock);
    s1 := At(s.(partitions := s.partitions[k := stamped], clock := s.clock + 1), w, Stamped(JobFor(s, k, key), stamped, pl));
  }

  lemma AssignsIt(s: State, w: nat, k: nat, key: string, s1: State)
    requires Reservable(s, w, k, key)
    requires var p, pl := s.partitions[k], PlacementOn(s.devices[key]);
             var stamped := StampOn(p, p, pl).(version := s.clock);
             s1 == At(s.(partitions := s.partitions[k := stamped], clock := s.clock + 1), w, Stamped(JobFor(s, k, key), stamped, pl))
    ensures Updates(s1, s.(partitions := s.partitions[k := Reserved(s, k, key)], clock := s.clock + 2), w, false)
  {
    var p := s.partitions[k];
    var plain := s.(partitions := s1.partitions, clock := s1.clock);
    WriteKeepsBasic(s, k, s1.partitions[k]);
    assert plain == Write(s, k, s1.partitions[k]);
    FindIsUnique(plain, k, p.name);
    assert s1.workers - {w} == s.workers && s1.locks - {s.devices[key].serial} == s.locks;
    assert s1.partitions[k := Reserved(s, k, key)] == s.partitions[k := Reserved(s, k, key)];
  }

  lemma ReservedIsAuthorized(s: State, k: nat, key: string)
    requires k < |s.partitions| && key in s.devices && s.partitions[k].placement.None?
    ensures var p := Reserved(s, k, key);
            && p.uid == s.partitions[k].uid && p.name == s.partitions[k].name && p.size == s.partitions[k].size
            && p.placement == Some(PlacementOn(s.devices[key])) && (p.fingerprint.Some? ==> IsAuthorized(p))
  {
  }

  /** From every such state a worker that is left alone places the partition on the device, leaves
      everything else as it was, and stamps it for the agent to accept. */
  lemma ReservationCanSucceed(s: State, w: nat, k: nat, key: string) returns (path: seq<State>, steps: seq<Step>)
    requires Reservable(s, w, k, key)
    ensures IsPath(path, steps) && path[0] == s
    ensures steps == [Begin(w, JobFor(s, k, key)), Acquire(w), ReadPartition(w), ReadDevice(w), ListAndCheck(w), StampStatus(w), UpdateSpec(w, false)]
    ensures Last(path) == s.(partitions := s.partitions[k := Reserved(s, k, key)], clock := s.clock + 2)
    ensures var p := Reserved(s, k, key);
            p.placement == Some(PlacementOn(s.devices[key])) && (p.fingerprint.Some? ==> IsAuthorized(p))
  {
    ReservedIsAuthorized(s, k, key);
    path, steps := Checked(s, w, k, key);
    var s1 := StampsIt(s, w, k, key);
    path, steps := Extended(path, steps, s1, StampStatus(w));
    AssignsIt(s, w, k, key, s1);
    path, steps := Extended(path, steps, s.(partitions := s.partitions[k := Reserved(s, k, key)], clock := s.clock + 2), UpdateSpec(w, false));
  }
}
