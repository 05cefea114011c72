/**
 How tight the condition on reused names is: wherever a worker is reserving for a name that
 now belongs to a larger partition, there is a continuation that oversubscribes the device.
 */
module NameReuse {
  import opened Options
  import opened Bytes
  import opened PlacementAuth
  import opened Reservation
  import opened Runs
  import Capacity

  lemma Extended(run: seq<State>, steps: seq<Step>, s': State, step: Step) returns (run': seq<State>, steps': seq<Step>)
    requires IsRun(run, steps) && Next(Last(run), s', step)
    ensures IsRun(run', steps') && run' == run + [s'] && Last(run') == s'
  {
    run', steps' := run + [s'], steps + [step];
    forall i | 0 <= i < |steps'|
      ensures Next(run'[i], run'[i + 1], steps'[i])
    {
      if i < |steps| {
        assert Next(run[i], run[i + 1], steps[i]);
      }
    }
  }

  ghost predicate Overbooked(s: State, serial: GoString) {
    Used(s.partitions, serial) > Total(s, serial)
  }

  /** Object `k` has the name the worker reserves for, is unplaced and live, and does not fit. */
  ghost predicate Overdue(s: State, w: nat, k: nat) {
    && w in s.workers && k < |s.partitions|
    && s.partitions[k].name == s.workers[w].job.name
    && s.partitions[k].placement.None? && !s.partitions[k].deleting
    && Used(s.partitions, s.workers[w].job.serial) + Capacity.Rounded(s.partitions[k].size) > Total(s, s.workers[w].job.serial)
  }

  /** The capacity check, which is about the requested amount, lets the worker through. */
  ghost predicate Passing(s: State, w: nat) {
    && w in s.workers
    && Used(s.partitions, s.workers[w].job.serial) <= Capacity.MAX_INT64
    && Used(s.partitions, s.workers[w].job.serial) + s.workers[w].job.requested <= Total(s, s.workers[w].job.serial)
  }

  // ---------------------------------------------------------------- from each position

  lemma FromStampedCopy(run: seq<State>, steps: seq<Step>, w: nat, k: nat) returns (run': seq<State>, steps': seq<Step>)
    requires IsRun(run, steps) && Basic(Last(run)) && Overdue(Last(run), w, k)
    requires Last(run).workers[w].Stamped? && Last(run).workers[w].copy == Last(run).partitions[k]
    ensures IsRun(run', steps') && run <= run' && Overbooked(Last(run'), Last(run).workers[w].job.serial)
  {
    var s := Last(run);
    var Stamped(job, copy, pl) := s.workers[w];
    FindIsUnique(s, k, job.name);
    var updated := Assigned(s.partitions[k], pl);
    var s' := Stop(Write(s, k, updated), w);
    assert Updates(s, s', w, false);
    UsedUpdate(s.partitions, k, updated.(version := s.clock), job.serial);
    run', steps' := Extended(run, steps, s', UpdateSpec(w, false));
  }

  lemma FromAdmitted(run: seq<State>, steps: seq<Step>, w: nat, k: nat) returns (run': seq<State>, steps': seq<Step>)
    requires IsRun(run, steps) && Basic(Last(run)) && Overdue(Last(run), w, k) && Last(run).workers[w].Admitted?
    ensures IsRun(run', steps') && run <= run' && Overbooked(Last(run'), Last(run).workers[w].job.serial)
  {
    var s := Last(run);
    var Admitted(job, copy, pl) := s.workers[w];
    FindIsUnique(s, k, job.name);
    var stamped := StampOn(s.partitions[k], copy, pl);
    var s1 := Write(s, k, stamped);
    var s' := Move(s1, w, Stamped(job, s1.partitions[k], pl));
    assert Stamps(s, s', w);
    StampKeepsBasic(s, s', w);
    UsedUpdate(s.partitions, k, stamped.(version := s.clock), job.serial);
    run', steps' := Extended(run, steps, s', StampStatus(w));
    run', steps' := FromStampedCopy(run', steps', w, k);
  }

  lemma FromHaveDevice(run: seq<State>, steps: seq<Step>, w: nat, k: nat) returns (run': seq<State>, steps': seq<Step>)
    requires IsRun(run, steps) && Basic(Last(run)) && Overdue(Last(run), w, k) && Passing(Last(run), w) && Last(run).workers[w].HaveDevice?
    ensures IsRun(run', steps') && run <= run' && Overbooked(Last(run'), Last(run).workers[w].job.serial)
  {
    var s := Last(run);
    var HaveDevice(job, copy, pl) := s.workers[w];
    var s' := Move(s, w, Admitted(job, copy, pl));
    assert Lists(s, s', w);
    ReadKeepsBasic(s, s', w);
    run', steps' := Extended(run, steps, s', ListAndCheck(w));
    run', steps' := FromAdmitted(run', steps', w, k);
  }

  lemma FromHavePartition(run: seq<State>, steps: seq<Step>, w: nat, k: nat) returns (run': seq<State>, steps': seq<Step>)
    requires IsRun(run, steps) && Basic(Last(run)) && Overdue(Last(run), w, k) && Passing(Last(run), w) && Last(run).workers[w].HavePartition?
    ensures IsRun(run', steps') && run <= run' && Overbooked(Last(run'), Last(run).workers[w].job.serial)
  {
    var s := Last(run);
    var HavePartition(job, copy) := s.workers[w];
    var d := Device(job.serial, [1], ClaimRef([1], [1], [1]), true);
    var s1 := s.(devices := s.devices[job.device := d]);
    run', steps' := Extended(run, steps, s1, ChangeDevice(job.device, d));
    var s2 := Move(s1, w, HaveDevice(job, copy, PlacementOn(d)));
    assert ReadsDevice(s1, s2, w);
    ReadKeepsBasic(s1, s2, w);
    run', steps' := Extended(run', steps', s2, ReadDevice(w));
    run', steps' := FromHaveDevice(run', steps', w, k);
  }

  lemma FromLocked(run: seq<State>, steps: seq<Step>, w: nat, k: nat) returns (run': seq<State>, steps': seq<Step>)
    requires IsRun(run, steps) && Basic(Last(run)) && Overdue(Last(run), w, k) && Passing(Last(run), w) && Last(run).workers[w].Locked?
    ensures IsRun(run', steps') && run <= run' && Overbooked(Last(run'), Last(run).workers[w].job.serial)
  {
    var s := Last(run);
    FindIsUnique(s, k, s.workers[w].job.name);
    var s' := Move(s, w, HavePartition(s.workers[w].job, s.partitions[k]));
    assert ReadsPartition(s, s', w);
    ReadKeepsBasic(s, s', w);
    run', steps' := Extended(run, steps, s', ReadPartition(w));
    run', steps' := FromHavePartition(run', steps', w, k);
  }

  lemma FromChosen(run: seq<State>, steps: seq<Step>, w: nat, k: nat) returns (run': seq<State>, steps': seq<Step>)
    requires IsRun(run, steps) && Basic(Last(run)) && Overdue(Last(run), w, k) && Passing(Last(run), w) && Last(run).workers[w].Chosen?
    requires Last(run).workers[w].job.serial !in Last(run).locks
    ensures IsRun(run', steps') && run <= run' && Overbooked(Last(run'), Last(run).workers[w].job.serial)
  {
    var s := Last(run);
    var s' := Move(s, w, Locked(s.workers[w].job)).(locks := s.locks[s.workers[w].job.serial := w]);
    assert Acquires(s, s', w);
    StepKeepsBasic(s, s', Acquire(w));
    run', steps' := Extended(run, steps, s', Acquire(w));
    run', steps' := FromLocked(run', steps', w, k);
  }

  /** Whoever holds the lock can give up. */
  lemma FromWaiting(run: seq<State>, steps: seq<Step>, w: nat, k: nat) returns (run': seq<State>, steps': seq<Step>)
    requires IsRun(run, steps) && Basic(Last(run)) && Tracked(Last(run)) && Overdue(Last(run), w, k) && Passing(Last(run), w)
    requires Last(run).workers[w].Chosen?
    ensures IsRun(run', steps') && run <= run' && Overbooked(Last(run'), Last(run).workers[w].job.serial)
  {
    var s := Last(run);
    var serial := s.workers[w].job.serial;
    run', steps' := run, steps;
    if serial in s.locks {
      var v := s.locks[serial];
      StopKeepsBasic(s, v);
      run', steps' := Extended(run, steps, Stop(s, v), Abandon(v));
    }
    run', steps' := FromChosen(run', steps', w, k);
  }

  /** A worker whose update conflicts starts over under its lock. */
  lemma FromStale(run: seq<State>, steps: seq<Step>, w: nat, k: nat) returns (run': seq<State>, steps': seq<Step>)
    requires IsRun(run, steps) && Basic(Last(run)) && Overdue(Last(run), w, k) && Passing(Last(run), w)
    requires Last(run).workers[w].Stamped? && Last(run).workers[w].copy.version != Last(run).partitions[k].version
    ensures IsRun(run', steps') && run <= run' && Overbooked(Last(run'), Last(run).workers[w].job.serial)
  {
    var s := Last(run);
    FindIsUnique(s, k, s.workers[w].job.name);
    var s' := Move(s, w, Locked(s.workers[w].job));
    assert Updates(s, s', w, true);
    UpdateKeepsBasic(s, s', w, true);
    run', steps' := Extended(run, steps, s', UpdateSpec(w, true));
    run', steps' := FromLocked(run', steps', w, k);
  }

  /** A worker whose copy is up to date conflicts after any other status write. */
  lemma FromStamped(run: seq<State>, steps: seq<Step>, w: nat, k: nat) returns (run': seq<State>, steps': seq<Step>)
    requires IsRun(run, steps) && Basic(Last(run)) && Tracked(Last(run)) && Overdue(Last(run), w, k) && Passing(Last(run), w)
    requires Last(run).workers[w].Stamped?
    ensures IsRun(run', steps') && run <= run' && Overbooked(Last(run'), Last(run).workers[w].job.serial)
  {
    var s := Last(run);
    var s' := Write(s, k, s.partitions[k]);
    WriteKeepsBasic(s, k, s.partitions[k]);
    UsedUpdate(s.partitions, k, s.partitions[k].(version := s.clock), s.workers[w].job.serial);
    run', steps' := Extended(run, steps, s', TouchStatus(k));
    run', steps' := FromStale(run', steps', w, k);
  }

  // ---------------------------------------------------------------- theorems

  lemma FromAnywhere(run: seq<State>, steps: seq<Step>, w: nat, k: nat) returns (run': seq<State>, steps': seq<Step>)
    requires IsRun(run, steps) && Basic(Last(run)) && Tracked(Last(run)) && Overdue(Last(run), w, k) && Passing(Last(run), w)
    ensures IsRun(run', steps') && run <= run' && Overbooked(Last(run'), Last(run).workers[w].job.serial)
  {
    match Last(run).workers[w]
    case Chosen(_) => run', steps' := FromWaiting(run, steps, w, k);
    case Locked(_) => run', steps' := FromLocked(run, steps, w, k);
    case HavePartition(_, _) => run', steps' := FromHavePartition(run, steps, w, k);
    case HaveDevice(_, _, _) => run', steps' := FromHaveDevice(run, steps, w, k);
    case Admitted(_, _, _) => run', steps' := FromAdmitted(run, steps, w, k);
    case Stamped(_, _, _) => run', steps' := FromStamped(run, steps, w, k);
  }

  /** From every reachable state in which a worker reserves less than the object of that name
      needs, and that object does not fit, the device can come to be oversubscribed. */
  lemma LargerNamesakeOversubscribes(run: seq<State>, steps: seq<Step>, w: nat, k: nat) returns (run': seq<State>, steps': seq<Step>)
    requires IsRun(run, steps) && Overdue(Last(run), w, k)
    requires Capacity.Rounded(Last(run).partitions[k].size) > Last(run).workers[w].job.requested
    requires Used(Last(run).partitions, Last(run).workers[w].job.serial) <= Capacity.MAX_INT64
    ensures IsRun(run', steps') && run <= run' && Overbooked(Last(run'), Last(run).workers[w].job.serial)
  {
    RunKeepsBasic(run, steps, |run| - 1);
    var s := Last(run);
    var serial := s.workers[w].job.serial;
    var needed := Used(s.partitions, serial) + s.workers[w].job.requested;
    run', steps' := run, steps;
    if Total(s, serial) < needed {
      var s' := s.(advertised := s.advertised[serial := needed]);
      run', steps' := Extended(run, steps, s', Grow(serial, needed));
    }
    run', steps' := FromAnywhere(run', steps', w, k);
  }

  /** So no creation that the condition on reused names excludes can be let in: as soon as the new
      partition does not fit the device, its creation opens the way to oversubscription. */
  lemma ReuseSafeIsTight(run: seq<State>, steps: seq<Step>, p: Partition, w: nat, s': State) returns (run': seq<State>, steps': seq<Step>)
    requires IsRun(run, steps) && WorldNext(Last(run), s', Create(p))
    requires w in Last(run).workers && Last(run).workers[w].job.name == p.name
    requires Capacity.Rounded(p.size) > Last(run).workers[w].job.requested
    requires Used(Last(run).partitions, Last(run).workers[w].job.serial) <= Capacity.MAX_INT64
    requires Used(Last(run).partitions, Last(run).workers[w].job.serial) + Capacity.Rounded(p.size) > Total(Last(run), Last(run).workers[w].job.serial)
    ensures !ReuseSafe(Last(run), Create(p))
    ensures IsRun(run', steps') && run + [s'] <= run' && Overbooked(Last(run'), Last(run).workers[w].job.serial)
  {
    var s := Last(run);
    run', steps' := Extended(run, steps, s', Create(p));
    UsedConcat(s.partitions, [p.(version := s.clock)], s.workers[w].job.serial);
    assert [p.(version := s.clock)][1..] == [];
    assert s'.partitions[|s.partitions|] == p.(version := s.clock);
    run', steps' := LargerNamesakeOversubscribes(run', steps', w, |s.partitions|);
  }
}
