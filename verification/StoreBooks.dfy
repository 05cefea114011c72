/**
 The books between the scheduler and the volumes on one device, whichever volume manager makes
 them.

 The scheduler machine takes its steps.  In between a volume is added for an assigned object that
 has none, of whatever size it turns out to have, or a volume is dropped.  An object leaves the API
 only when its volume is gone; that is what its cleanup finalizer is for.  `nameOf` gives the
 volume name of an object from its UID.
 */
module StoreBooks {
  import opened Options
  import opened Bytes
  import opened Runs
  import R = Reservation
  import Capacity

  datatype Volume = Volume(name: string, bytes: int)

  /** The serial number under which the scheduler knows the device. */
  datatype Site = Site(serial: GoString, nameOf: GoString -> string)

  datatype Books = Books(manager: R.State, volumes: seq<Volume>)

  datatype Step =
    | Schedule(step: R.Step)
    | Add(k: nat, bytes: int)
    | Drop
    | Idle

  ghost predicate Injective(site: Site) {
    forall u, v :: site.nameOf(u) == site.nameOf(v) ==> u == v
  }

  predicate PlacedHere(site: Site, p: R.Partition) {
    p.placement.Some? && p.placement.value.serial == site.serial
  }

  predicate HasVolume(vs: seq<Volume>, name: string) {
    exists i :: 0 <= i < |vs| && vs[i].name == name
  }

  ghost predicate Inserted(vs: seq<Volume>, vs': seq<Volume>, v: Volume) {
    exists i :: 0 <= i <= |vs| && vs' == vs[..i] + [v] + vs[i..]
  }

  ghost predicate Dropped(vs: seq<Volume>, vs': seq<Volume>) {
    exists i :: 0 <= i < |vs| && vs' == vs[..i] + vs[i + 1..]
  }

  ghost predicate Next(site: Site, b: Books, b': Books, step: Step) {
    match step
    case Schedule(st) =>
      && R.Next(b.manager, b'.manager, st) && b'.volumes == b.volumes
      && (st.Remove? && st.k < |b.manager.partitions| ==> !HasVolume(b.volumes, site.nameOf(b.manager.partitions[st.k].uid)))
    case Add(k, bytes) =>
      && b'.manager == b.manager && k < |b.manager.partitions| && PlacedHere(site, b.manager.partitions[k])
      && var name := site.nameOf(b.manager.partitions[k].uid);
         !HasVolume(b.volumes, name) && Inserted(b.volumes, b'.volumes, Volume(name, bytes))
    case Drop => b'.manager == b.manager && Dropped(b.volumes, b'.volumes)
    case Idle => b' == b
  }

  /** An empty device, and whatever the scheduler starts from. */
  ghost predicate IsRun(site: Site, run: seq<Books>, steps: seq<Step>) {
    && |run| == |steps| + 1
    && R.Init(run[0].manager) && run[0].volumes == []
    && forall i :: 0 <= i < |steps| ==> Next(site, run[i], run[i + 1], steps[i])
  }

  /** A volume that is added has the size that was asked for. */
  predicate RightSize(b: Books, step: Step) {
    step.Add? && step.k < |b.manager.partitions| ==> step.bytes == Capacity.Rounded(b.manager.partitions[step.k].size)
  }

  // ---------------------------------------------------------------- the account

  function Amount(vs: seq<Volume>): int {
    if vs == [] then 0 else vs[0].bytes + Amount(vs[1..])
  }

  function NamesFor(site: Site, ps: seq<R.Partition>): (names: seq<string>)
    ensures |names| == |ps| && forall i :: 0 <= i < |ps| ==> names[i] == site.nameOf(ps[i].uid)
  {
    seq(|ps|, i requires 0 <= i < |ps| => site.nameOf(ps[i].uid))
  }

  function NamesOf(vs: seq<Volume>): set<string> {
    set v | v in vs :: v.name
  }

  /** The scheduler's weight of those partitions whose volume names are in `carved`;
      `names[i]` is the volume name of `ps[i]`. */
  function UsedBy(ps: seq<R.Partition>, names: seq<string>, serial: GoString, carved: set<string>): int
    requires |names| == |ps|
  {
    if ps == [] then 0
    else (if names[0] in carved then R.Weight(ps[0], serial) else 0) + UsedBy(ps[1..], names[1..], serial, carved)
  }

  ghost predicate Distinct(names: seq<string>) {
    forall i, j :: 0 <= i < j < |names| ==> names[i] != names[j]
  }

  ghost predicate NamedApart(vs: seq<Volume>) {
    forall i, j :: 0 <= i < j < |vs| ==> vs[i].name != vs[j].name
  }

  predicate OwnedBy(v: Volume, owner: R.Partition, name: string, serial: GoString) {
    && v.name == name && v.bytes == Capacity.Rounded(owner.size)
    && owner.placement.Some? && owner.placement.value.serial == serial
  }

  /** Each volume belongs to one assigned object and has its rounded size. */
  ghost predicate Backed(vs: seq<Volume>, ps: seq<R.Partition>, names: seq<string>, serial: GoString)
    requires |names| == |ps|
  {
    NamedApart(vs) && forall v :: v in vs ==> exists k :: 0 <= k < |ps| && OwnedBy(v, ps[k], names[k], serial)
  }

  ghost predicate Accounted(site: Site, b: Books) {
    Backed(b.volumes, b.manager.partitions, NamesFor(site, b.manager.partitions), site.serial)
  }

  lemma {:induction false} UsedByNone(ps: seq<R.Partition>, names: seq<string>, serial: GoString)
    requires |names| == |ps|
    ensures UsedBy(ps, names, serial, {}) == 0
  {
    if ps != [] {
      UsedByNone(ps[1..], names[1..], serial);
    }
  }

  lemma {:induction false} UsedByAbsent(ps: seq<R.Partition>, names: seq<string>, serial: GoString, carved: set<string>, name: string)
    requires |names| == |ps| && forall i :: 0 <= i < |names| ==> names[i] != name
    ensures UsedBy(ps, names, serial, carved + {name}) == UsedBy(ps, names, serial, carved)
  {
    if ps != [] {
      UsedByAbsent(ps[1..], names[1..], serial, carved, name);
    }
  }

  lemma {:induction false} UsedByOneMore(ps: seq<R.Partition>, names: seq<string>, serial: GoString, carved: set<string>, k: nat)
    requires |names| == |ps| && Distinct(names) && k < |ps| && names[k] !in carved
    ensures UsedBy(ps, names, serial, carved + {names[k]}) == UsedBy(ps, names, serial, carved) + R.Weight(ps[k], serial)
  {
    if k == 0 {
      UsedByAbsent(ps[1..], names[1..], serial, carved, names[0]);
    } else {
      assert names[1..][k - 1] == names[k];
      UsedByOneMore(ps[1..], names[1..], serial, carved, k - 1);
    }
  }

  lemma {:induction false} UsedByAtMostUsed(ps: seq<R.Partition>, names: seq<string>, serial: GoString, carved: set<string>)
    requires |names| == |ps| && forall p :: p in ps ==> Capacity.Allocatable(p.size)
    ensures 0 <= UsedBy(ps, names, serial, carved) <= R.Used(ps, serial)
  {
    if ps != [] {
      Capacity.RoundedIsLeast(ps[0].size);
      UsedByAtMostUsed(ps[1..], names[1..], serial, carved);
    }
  }

  /** The bytes of the volumes are exactly the scheduler's account of their objects. */
  lemma {:induction false} AmountIsAccount(vs: seq<Volume>, ps: seq<R.Partition>, names: seq<string>, serial: GoString)
    requires |names| == |ps| && Distinct(names) && Backed(vs, ps, names, serial)
    ensures Amount(vs) == UsedBy(ps, names, serial, NamesOf(vs))
  {
    if vs == [] {
      UsedByNone(ps, names, serial);
      assert NamesOf(vs) == {};
    } else {
      assert vs[0] in vs;
      var k :| 0 <= k < |ps| && OwnedBy(vs[0], ps[k], names[k], serial);
      assert forall i :: 0 <= i < |vs[1..]| ==> vs[1..][i] == vs[i + 1];
      assert Backed(vs[1..], ps, names, serial) by {
        assert forall v :: v in vs[1..] ==> v in vs;
      }
      AmountIsAccount(vs[1..], ps, names, serial);
      assert NamesOf(vs) == NamesOf(vs[1..]) + {names[k]};
      assert names[k] !in NamesOf(vs[1..]);
      UsedByOneMore(ps, names, serial, NamesOf(vs[1..]), k);
    }
  }

  lemma NamesAreDistinct(site: Site, s: R.State)
    requires Injective(site) && R.UidsUnique(s)
    ensures Distinct(NamesFor(site, s.partitions))
  {
  }

  // ---------------------------------------------------------------- single steps

  /** Where the object `k` is after a step of the scheduler. */
  ghost predicate Carries(s: R.State, s': R.State, k: nat) {
    exists j :: 0 <= j < |s'.partitions| && SameObject(s.partitions, k, s'.partitions[j])
  }

  predicate SameObject(ps: seq<R.Partition>, k: nat, p: R.Partition) {
    && k < |ps|
    && p.uid == ps[k].uid && p.size == ps[k].size && (ps[k].placement.Some? ==> p.placement == ps[k].placement)
  }

  lemma WriteCarries(s: R.State, j: nat, w: R.Partition, k: nat)
    requires j < |s.partitions| && k < |s.partitions| && SameObject(s.partitions, j, w)
    ensures Carries(s, R.Write(s, j, w), k)
  {
    assert SameObject(s.partitions, k, R.Write(s, j, w).partitions[k]);
  }

  lemma StampCarries(s: R.State, s': R.State, w: nat, k: nat)
    requires R.Stamps(s, s', w) && k < |s.partitions|
    ensures Carries(s, s', k)
  {
    assert SameObject(s.partitions, k, s.partitions[k]);
    var pc := s.workers[w];
    var found := R.Find(s.partitions, pc.job.name);
    if found.Some? {
      WriteCarries(s, found.value, R.StampOn(s.partitions[found.value], pc.copy, pc.placement), k);
    }
  }

  lemma UpdateCarries(s: R.State, s': R.State, w: nat, retry: bool, k: nat)
    requires R.Updates(s, s', w, retry) && k < |s.partitions|
    ensures Carries(s, s', k)
  {
    assert SameObject(s.partitions, k, s.partitions[k]);
    var pc := s.workers[w];
    var found := R.Find(s.partitions, pc.job.name);
    if s'.partitions != s.partitions {
      WriteCarries(s, found.value, R.Assigned(s.partitions[found.value], pc.placement), k);
    }
  }

  lemma StepCarries(s: R.State, s': R.State, step: R.Step, k: nat)
    requires R.Next(s, s', step) && k < |s.partitions| && step != R.Step.Remove(k)
    ensures Carries(s, s', k)
  {
    assert SameObject(s.partitions, k, s.partitions[k]);
    match step
    case StampStatus(w) => StampCarries(s, s', w, k);
    case UpdateSpec(w, retry) => UpdateCarries(s, s', w, retry, k);
    case MarkDeleted(j) => WriteCarries(s, j, s.partitions[j].(deleting := true), k);
    case TouchStatus(j) => WriteCarries(s, j, s.partitions[j], k);
    case Remove(j) => assert s'.partitions[if k < j then k else k - 1] == s.partitions[k];
    case Create(_) => assert s'.partitions[k] == s.partitions[k];
    case _ => assert s'.partitions == s.partitions;
  }

  lemma ScheduleKeepsAccount(site: Site, b: Books, b': Books, step: R.Step)
    requires Next(site, b, b', Schedule(step)) && Accounted(site, b)
    ensures Accounted(site, b')
  {
    var ps, ps' := b.manager.partitions, b'.manager.partitions;
    forall v | v in b'.volumes
      ensures exists j :: 0 <= j < |ps'| && OwnedBy(v, ps'[j], NamesFor(site, ps')[j], site.serial)
    {
      var k :| 0 <= k < |ps| && OwnedBy(v, ps[k], NamesFor(site, ps)[k], site.serial);
      assert HasVolume(b.volumes, site.nameOf(ps[k].uid));
      StepCarries(b.manager, b'.manager, step, k);
      var j :| 0 <= j < |ps'| && SameObject(ps, k, ps'[j]);
      assert OwnedBy(v, ps'[j], NamesFor(site, ps')[j], site.serial);
    }
  }

  /** Where the volumes are after volume `v` went in at `i`. */
  lemma InsertedAt(vs: seq<Volume>, vs': seq<Volume>, v: Volume, i: nat)
    requires i <= |vs| && vs' == vs[..i] + [v] + vs[i..]
    ensures |vs'| == |vs| + 1 && vs'[i] == v
    ensures forall j :: 0 <= j < i ==> vs'[j] == vs[j]
    ensures forall j :: i < j < |vs'| ==> vs'[j] == vs[j - 1]
  {
  }

  lemma InsertedContents(vs: seq<Volume>, vs': seq<Volume>, v: Volume)
    requires Inserted(vs, vs', v) && NamedApart(vs) && !HasVolume(vs, v.name)
    ensures v in vs' && (forall w :: w in vs' <==> w == v || w in vs) && NamedApart(vs')
  {
    var i :| 0 <= i <= |vs| && vs' == vs[..i] + [v] + vs[i..];
    InsertedAt(vs, vs', v, i);
    forall w | w in vs
      ensures w in vs'
    {
      var j :| 0 <= j < |vs| && vs[j] == w;
      assert vs'[if j < i then j else j + 1] == w;
    }
    forall j, l | 0 <= j < l < |vs'|
      ensures vs'[j].name != vs'[l].name
    {
      assert j != i ==> vs'[j] == vs[if j < i then j else j - 1];
      assert l != i ==> vs'[l] == vs[if l < i then l else l - 1];
    }
  }

  lemma DroppedContents(vs: seq<Volume>, vs': seq<Volume>)
    requires Dropped(vs, vs') && NamedApart(vs)
    ensures (forall v :: v in vs' ==> v in vs) && NamedApart(vs')
  {
    var i :| 0 <= i < |vs| && vs' == vs[..i] + vs[i + 1..];
    forall j, l | 0 <= j < l < |vs'|
      ensures vs'[j].name != vs'[l].name
    {
      assert vs'[j] == vs[if j < i then j else j + 1] && vs'[l] == vs[if l < i then l else l + 1];
    }
  }

  /** Adding a volume keeps the account exactly when it has the rounded size. */
  lemma AddKeepsAccountIff(site: Site, b: Books, b': Books, k: nat, bytes: int)
    requires Injective(site) && R.Basic(b.manager) && Accounted(site, b) && Next(site, b, b', Add(k, bytes))
    ensures Accounted(site, b') <==> RightSize(b, Add(k, bytes))
  {
    var ps, names := b.manager.partitions, NamesFor(site, b.manager.partitions);
    var v := Volume(names[k], bytes);
    InsertedContents(b.volumes, b'.volumes, v);
    NamesAreDistinct(site, b.manager);
    if Accounted(site, b') {
      var j :| 0 <= j < |ps| && OwnedBy(v, ps[j], names[j], site.serial);
      assert j == k;
    }
    if RightSize(b, Add(k, bytes)) {
      assert OwnedBy(v, ps[k], names[k], site.serial);
    }
  }

  lemma DropKeepsAccount(site: Site, b: Books, b': Books)
    requires Accounted(site, b) && Next(site, b, b', Drop)
    ensures Accounted(site, b')
  {
    DroppedContents(b.volumes, b'.volumes);
  }

  /** A step keeps the account exactly when a volume it adds has the right size. */
  lemma StepKeepsAccountIff(site: Site, b: Books, b': Books, step: Step)
    requires Injective(site) && R.Basic(b.manager) && Accounted(site, b) && Next(site, b, b', step)
    ensures Accounted(site, b') <==> RightSize(b, step)
  {
    match step
    case Schedule(st) => ScheduleKeepsAccount(site, b, b', st);
    case Add(k, bytes) => AddKeepsAccountIff(site, b, b', k, bytes);
    case Drop => DropKeepsAccount(site, b, b');
    case Idle =>
  }

  // ---------------------------------------------------------------- whole runs

  lemma {:induction false} RunKeepsBasic(site: Site, run: seq<Books>, steps: seq<Step>, i: nat)
    requires IsRun(site, run, steps) && i < |run|
    ensures R.Basic(run[i].manager)
  {
    if i > 0 {
      RunKeepsBasic(site, run, steps, i - 1);
      NextAt(site, run, steps, i - 1);
      if steps[i - 1].Schedule? {
        R.StepKeepsBasic(run[i - 1].manager, run[i].manager, steps[i - 1].step);
      }
    }
  }

  lemma NextAt(site: Site, run: seq<Books>, steps: seq<Step>, i: nat)
    requires IsRun(site, run, steps) && i < |steps|
    ensures Next(site, run[i], run[i + 1], steps[i])
  {
  }

  /** Which states are accounted for, and which steps add no volume of a wrong size. */
  ghost function AccountedAt(site: Site, run: seq<Books>): seq<bool> {
    seq(|run|, i requires 0 <= i < |run| => Accounted(site, run[i]))
  }

  ghost function RightAt(run: seq<Books>, steps: seq<Step>): seq<bool>
    requires |run| == |steps| + 1
  {
    seq(|steps|, i requires 0 <= i < |steps| => RightSize(run[i], steps[i]))
  }

  lemma AccountedAtIff(site: Site, run: seq<Books>, steps: seq<Step>, i: nat)
    requires IsRun(site, run, steps) && Injective(site) && i < |steps| && Accounted(site, run[i])
    ensures Accounted(site, run[i + 1]) <==> RightSize(run[i], steps[i])
  {
    RunKeepsBasic(site, run, steps, i);
    NextAt(site, run, steps, i);
    StepKeepsAccountIff(site, run[i], run[i + 1], steps[i]);
  }

  /** Over a whole run every volume is accounted for exactly when every volume added has the size
      that was asked for. */
  lemma AccountedRunIff(site: Site, run: seq<Books>, steps: seq<Step>)
    requires IsRun(site, run, steps) && Injective(site)
    ensures (forall i :: 0 <= i < |run| ==> AccountedAt(site, run)[i]) <==> (forall i :: 0 <= i < |steps| ==> RightAt(run, steps)[i])
  {
    forall i | 0 <= i < |steps| && AccountedAt(site, run)[i]
      ensures AccountedAt(site, run)[i + 1] <==> RightAt(run, steps)[i]
    {
      AccountedAtIff(site, run, steps, i);
    }
    ThroughoutIff(AccountedAt(site, run), RightAt(run, steps));
  }

  lemma RunIsAccounted(site: Site, run: seq<Books>, steps: seq<Step>, i: nat)
    requires IsRun(site, run, steps) && Injective(site) && i < |run|
    requires forall j :: 0 <= j < |steps| ==> RightAt(run, steps)[j]
    ensures Accounted(site, run[i])
  {
    AccountedRunIff(site, run, steps);
    assert AccountedAt(site, run)[i];
  }

  /** In every such state the bytes of the volumes equal the scheduler's account of the partitions
      that have one, whatever names were reused. */
  lemma BooksBalance(site: Site, run: seq<Books>, steps: seq<Step>, i: nat)
    requires IsRun(site, run, steps) && Injective(site) && i < |run|
    requires forall j :: 0 <= j < |steps| ==> RightAt(run, steps)[j]
    ensures var ps := run[i].manager.partitions;
            Amount(run[i].volumes) == UsedBy(ps, NamesFor(site, ps), site.serial, NamesOf(run[i].volumes))
  {
    RunIsAccounted(site, run, steps, i);
    RunKeepsBasic(site, run, steps, i);
    NamesAreDistinct(site, run[i].manager);
    AmountIsAccount(run[i].volumes, run[i].manager.partitions, NamesFor(site, run[i].manager.partitions), site.serial);
  }

  lemma {:induction false} RunKeepsSound(site: Site, run: seq<Books>, steps: seq<Step>, i: nat)
    requires IsRun(site, run, steps) && i < |run|
    requires forall j :: 0 <= j < |steps| && steps[j].Schedule? ==> R.ReuseSafe(run[j].manager, steps[j].step)
    ensures R.Sound(run[i].manager)
  {
    if i == 0 {
      R.NeverOversubscribed([run[0].manager], [], 0);
    } else {
      RunKeepsSound(site, run, steps, i - 1);
      NextAt(site, run, steps, i - 1);
      if steps[i - 1].Schedule? {
        if R.WorkerNext(run[i - 1].manager, run[i].manager, steps[i - 1].step) {
          R.WorkerKeepsSound(run[i - 1].manager, run[i].manager, steps[i - 1].step);
        } else {
          R.WorldKeepsSound(run[i - 1].manager, run[i].manager, steps[i - 1].step);
        }
      }
    }
  }

  /** Without names reused for larger partitions they never exceed the device total either, and leave
      room for each assigned partition that has no volume yet. */
  lemma BooksFit(site: Site, run: seq<Books>, steps: seq<Step>, i: nat, k: nat)
    requires IsRun(site, run, steps) && Injective(site) && i < |run|
    requires forall j :: 0 <= j < |steps| && steps[j].Schedule? ==> R.ReuseSafe(run[j].manager, steps[j].step)
    requires forall j :: 0 <= j < |steps| ==> RightAt(run, steps)[j]
    ensures Amount(run[i].volumes) <= R.Total(run[i].manager, site.serial)
    ensures var ps := run[i].manager.partitions;
            k < |ps| && PlacedHere(site, ps[k]) && !HasVolume(run[i].volumes, site.nameOf(ps[k].uid)) ==>
              Amount(run[i].volumes) + Capacity.Rounded(ps[k].size) <= R.Total(run[i].manager, site.serial)
  {
    BooksBalance(site, run, steps, i);
    RunKeepsSound(site, run, steps, i);
    var s := run[i].manager;
    var names, carved := NamesFor(site, s.partitions), NamesOf(run[i].volumes);
    NamesAreDistinct(site, s);
    UsedByAtMostUsed(s.partitions, names, site.serial, carved);
    assert R.Used(s.partitions, site.serial) <= R.Total(s, site.serial);
    if k < |s.partitions| && !HasVolume(run[i].volumes, names[k]) {
      UsedByOneMore(s.partitions, names, site.serial, carved, k);
      UsedByAtMostUsed(s.partitions, names, site.serial, carved + {names[k]});
    }
  }
}
