/**
 PartedVolumeManager: volumes as named partitions of one disk.

 The disk is a mutable object.  Every parted call may fail, before or after taking effect,
 and mkpart may put the partition elsewhere than asked; what CreateVolume promises rests
 on its re-reading of the table, not on mkpart's good behaviour.
 */
module PartedVolumes {
  import opened Options
  import opened PartedTable
  import opened Text
  import Capacity

  datatype VolumeIdentity = VolumeIdentity(backendVolumeId: string, capacityBytes: int, volumeName: string)

  // ---------------------------------------------------------------- paths

  function PartitionPath(device: string, number: nat): string {
    device + "p" + Decimal(number)
  }

  /** partitionNumberFromPath; device paths are canonical, so path cleaning changes nothing. */
  function NumberFromPath(device: string, path: string): Option<int> {
    var prefix := device + "p";
    if !(prefix <= path) then None
    else
      match Atoi(path[|prefix|..])
      case None => None
      case Some(n) => if n < 1 then None else Some(n)
  }

  /** A path names the number it was made from. */
  lemma PathRoundTrip(device: string, number: nat)
    requires 1 <= number <= Capacity.MAX_INT64
    ensures NumberFromPath(device, PartitionPath(device, number)) == Some(number)
    ensures PartitionPath(device, number) != ""
  {
    var prefix := device + "p";
    assert PartitionPath(device, number)[|prefix|..] == Decimal(number);
    AtoiDecimal(number);
  }

  // ---------------------------------------------------------------- specifications

  ghost predicate NamedOnce(t: seq<Part>, p: Part) {
    p in t && forall q :: q in t && q.name == p.name ==> q == p
  }

  /** At most one partition has the name. */
  ghost predicate Unambiguous(t: seq<Part>, name: string) {
    forall p, q :: p in t && q in t && p.name == name && q.name == name ==> p == q
  }

  /** Two rows have the name. */
  ghost predicate Repeated(t: seq<Part>, name: string) {
    exists i, j :: 0 <= i < j < |t| && t[i].name == name && t[j].name == name
  }

  predicate HasName(t: seq<Part>, name: string) {
    exists p :: p in t && p.name == name
  }

  /** The identity CreateVolume reports for partition `p`. */
  function IdentityOf(device: string, p: Part): VolumeIdentity
    requires p.number >= 0
  {
    VolumeIdentity(PartitionPath(device, p.number), Length(p), p.name)
  }

  /** What one CreateVolume call does to the table `t`, giving `t'` and result `r`. */
  ghost predicate Creates(device: string, lo: int, hi: int, t: seq<Part>, t': seq<Part>,
                          name: string, size: int, r: Option<VolumeIdentity>) {
    // Every partition already there keeps its number, bounds and name.
    && (forall p :: p in t ==> p in t')
    // At most one partition appears, it has the name, and only if nothing had it before.
    && (t' == t || (!HasName(t, name) && exists p :: t' == Insert(t, p) && p.name == name && WellFormed(t', lo, hi)))
    && (HasName(t, name) || !Capacity.Allocatable(size) ==> t' == t)
    && (r.Some? ==> Capacity.Allocatable(size) && exists p :: Reported(device, t', p, name, size, r.value))
    && (r.Some? && !HasName(t, name) ==>
          exists p :: Reported(device, t', p, name, size, r.value) && Placed(lo, hi, t, p, size))
  }

  /** `p` is the only partition with the name, has the rounded size, and is what is reported. */
  ghost predicate Reported(device: string, t: seq<Part>, p: Part, name: string, size: int, id: VolumeIdentity) {
    NamedOnce(t, p) && p.name == name && p.number >= 1 && Length(p) == Capacity.Rounded(size) && id == IdentityOf(device, p)
  }

  /** A fresh partition: the first aligned fit, under the lowest free number. */
  ghost predicate Placed(lo: int, hi: int, t: seq<Part>, p: Part, size: int) {
    && LowestFree(t, p.number)
    && FirstFit(Gaps(t, lo, hi), Capacity.Rounded(size)) == Some(Extent(p.first, p.last))
  }

  /** What one DeleteVolume call does. */
  ghost predicate Deletes(device: string, t: seq<Part>, t': seq<Part>, name: string, identity: Option<string>, ok: bool) {
    // Nothing but a partition of that name, and under the persisted number, is ever removed.
    && (t' == t || exists k :: 0 <= k < |t| && t' == t[..k] + t[k + 1..] && t[k].name == name
                               && (identity.Some? ==> NumberFromPath(device, identity.value) == Some(t[k].number)))
    && (ok && identity.None? ==> !HasName(t', name))
    && (ok && identity.Some? ==>
          && NumberFromPath(device, identity.value).Some?
          && forall p :: p in t' ==> p.number != NumberFromPath(device, identity.value).value)
    // A number now owned by another volume, or an unusable path, is refused.
    && (identity.Some? && (NumberFromPath(device, identity.value).None? || OwnedByOther(t, NumberFromPath(device, identity.value).value, name))
        ==> !ok && t' == t)
  }

  /** A retry finds the one partition of the name with the right size; otherwise something must fit. */
  ghost predicate CanCreate(lo: int, hi: int, t: seq<Part>, name: string, size: int) {
    && Capacity.Allocatable(size)
    && if HasName(t, name) then exists p :: NamedOnce(t, p) && p.name == name && Length(p) == Capacity.Rounded(size)
       else FirstFit(Gaps(t, lo, hi), Capacity.Rounded(size)).Some?
  }

  /** A recorded number is usable and not another volume's; without one the name is unambiguous. */
  ghost predicate CanDelete(device: string, t: seq<Part>, name: string, identity: Option<string>) {
    if identity.Some? then
      && NumberFromPath(device, identity.value).Some?
      && !OwnedByOther(t, NumberFromPath(device, identity.value).value, name)
    else Unambiguous(t, name)
  }

  predicate OwnedByOther(t: seq<Part>, number: int, name: string) {
    exists p :: p in t && p.number == number && p.name != name
  }

  // ---------------------------------------------------------------- the medium

  datatype Inspection = Readable | Unlabelled | Failed

  /** When `reliable` is set, every command does what it is told. */
  class Disk {
    const reliable: bool
    const device: string
    const lo: int
    const hi: int
    var labelled: bool
    var table: seq<Part>

    ghost predicate Valid()
      reads this
    {
      WellFormed(table, lo, hi) && (!labelled ==> table == [])
    }

    constructor (device: string, lo: int, hi: int, reliable: bool)
      requires 0 <= lo
      ensures Valid() && !labelled && table == []
      ensures this.device == device && this.lo == lo && this.hi == hi && this.reliable == reliable
    {
      this.device, this.lo, this.hi, this.labelled, this.table, this.reliable := device, lo, hi, false, [], reliable;
    }

    method Works() returns (ok: bool)
      ensures reliable ==> ok
    {
      ok := *;
      ok := ok || reliable;
    }

    /** parted print, with its error told apart as isUnrecognizedDiskLabel does. */
    method Inspect() returns (r: Inspection)
      ensures r == Readable ==> labelled
      ensures r == Unlabelled ==> !labelled
      ensures reliable ==> r != Failed
    {
      var works := Works();
      r := if !works then Failed else if labelled then Readable else Unlabelled;
    }

    /** wipefs and mklabel: both destroy whatever table there was. */
    method MkLabel() returns (ok: bool)
      requires Valid()
      modifies this
      ensures Valid()
      ensures ok ==> labelled && table == []
      ensures !ok ==> labelled == old(labelled) && table == old(table)
      ensures reliable ==> ok
    {
      ok := Works();
      if ok {
        labelled, table := true, [];
      }
    }

    /** parted print free */
    method Print() returns (r: Option<(seq<Part>, seq<Extent>)>)
      ensures r.Some? ==> labelled && r.value == (table, Gaps(table, lo, hi))
      ensures reliable && labelled ==> r.Some?
    {
      var works := Works();
      r := if labelled && works then Some((table, Gaps(table, lo, hi))) else None;
    }

    /** parted mkpart: whatever it reports, it adds at most one partition of that name, never
        over another one, under some unused number, but not necessarily where it was told. */
    method MkPart(name: string, first: int, last: int) returns (ok: bool)
      requires Valid() && labelled
      modifies this`table
      ensures Valid()
      ensures table == old(table) || exists p :: table == Insert(old(table), p) && p.name == name
      ensures reliable && lo <= first <= last <= hi && ApartFromAll(old(table), first, last) ==>
        ok && exists n :: LowestFree(old(table), n) && table == Insert(old(table), Part(n, first, last, name))
    {
      ok := *;
      var number: int, at: int, until: int := *, *, *;
      if reliable && lo <= first <= last <= hi {
        ok, at, until := true, first, last;
        number := LowestAvailable(table);
      }
      if lo <= at <= until <= hi && number >= 1 && ApartFromAll(table, at, until) && !Taken(table, number) {
        var p := Part(number, at, until, name);
        assert forall q :: q in table ==> q.number != p.number;
        InsertWellFormed(table, lo, hi, p);
        table := Insert(table, p);
      }
    }

    /** parted rm */
    method Rm(number: int) returns (ok: bool, ghost k: nat)
      requires Valid() && Taken(table, number)
      modifies this`table
      ensures Valid()
      ensures k < |old(table)| && old(table)[k].number == number
      ensures table == old(table)[..k] + old(table)[k + 1..] || (!ok && table == old(table))
      ensures reliable ==> ok
    {
      var index :| 0 <= index < |table| && table[index].number == number;
      k := index;
      RemoveWellFormed(table, lo, hi, index);
      var applied: bool := *;
      ok := Works();
      if applied || ok {
        table := table[..index] + table[index + 1..];
      }
    }
  }

  // ---------------------------------------------------------------- the manager

  /** partitionsNamed */
  method PartitionsNamed(t: seq<Part>, name: string) returns (matches: seq<Part>)
    ensures forall p :: p in matches <==> p in t && p.name == name
    ensures |matches| <= 1 ==> Unambiguous(t, name)
    ensures |matches| > 1 ==> Repeated(t, name)
  {
    matches := [];
    for i := 0 to |t|
      invariant forall p :: p in matches <==> p in t[..i] && p.name == name
      invariant |matches| > 0 ==> exists j :: 0 <= j < i && t[j].name == name
      invariant |matches| > 1 ==> exists j, k :: 0 <= j < k < i && t[j].name == name && t[k].name == name
    {
      assert t[..i + 1] == t[..i] + [t[i]];
      if t[i].name == name {
        matches := matches + [t[i]];
      }
    }
    assert t[..|t|] == t;
    if |matches| <= 1 {
      assert forall p :: p in t && p.name == name ==> p in matches;
    }
  }

  class PartedVolumeManager {
    const disk: Disk

    constructor (disk: Disk)
      ensures this.disk == disk
    {
      this.disk := disk;
    }

    /** SetupStorage labels a disk only after seeing that it has no label: a disk that has a
        table, or whose inspection fails for another reason, is left alone. */
    method SetupStorage() returns (ok: bool)
      requires disk.Valid()
      modifies disk
      ensures disk.Valid()
      ensures ok ==> disk.labelled
      ensures disk.reliable ==> ok
      ensures old(disk.labelled) ==> disk.labelled && disk.table == old(disk.table)
      ensures !old(disk.labelled) ==> disk.table == []
    {
      var seen := disk.Inspect();
      if seen == Readable {
        return true;
      }
      if seen == Failed {
        return false;
      }
      var made := disk.MkLabel();
      if !made {
        return false;
      }
      seen := disk.Inspect();
      ok := seen == Readable;
    }

    method CreateVolume(name: string, size: int) returns (r: Option<VolumeIdentity>)
      requires disk.Valid()
      modifies disk`table
      ensures disk.Valid()
      ensures Creates(disk.device, disk.lo, disk.hi, old(disk.table), disk.table, name, size, r)
      ensures disk.reliable ==> (r.Some? <==> disk.labelled && CanCreate(disk.lo, disk.hi, old(disk.table), name, size))
    {
      RefusalMeetsSpec(disk.device, disk.lo, disk.hi, disk.table, name, size);
      if !Capacity.Allocatable(size) {
        return None;
      }
      var printed := disk.Print();
      if printed.None? {
        return None;
      }
      var (partitions, extents) := printed.value;
      var existing := PartitionsNamed(partitions, name);
      if |existing| > 1 {
        AmbiguousName(disk.table, disk.lo, disk.hi, name);
        return None;
      }
      if |existing| == 1 {
        assert existing[0] in existing && NamedOnce(disk.table, existing[0]);
        r := ReportExisting(existing[0], name, size);
        return;
      }
      assert !HasName(disk.table, name);
      r := CarveNew(name, size, extents);
    }

    /** The retry path: the partition is there already. */
    method ReportExisting(p: Part, name: string, size: int) returns (r: Option<VolumeIdentity>)
      requires disk.Valid() && disk.labelled && Capacity.Allocatable(size) && p.name == name && NamedOnce(disk.table, p)
      ensures Creates(disk.device, disk.lo, disk.hi, disk.table, disk.table, name, size, r)
      ensures disk.reliable ==> (r.Some? <==> CanCreate(disk.lo, disk.hi, disk.table, name, size))
    {
      assert HasName(disk.table, name);
      if Length(p) != Capacity.Rounded(size) {
        return None;
      }
      var appeared := disk.Works();
      if !appeared {
        return None;
      }
      assert Reported(disk.device, disk.table, p, name, size, IdentityOf(disk.device, p));
      r := Some(IdentityOf(disk.device, p));
    }

    /** The first creation: choose, write, read back. */
    method CarveNew(name: string, size: int, extents: seq<Extent>) returns (r: Option<VolumeIdentity>)
      requires disk.Valid() && disk.labelled && Capacity.Allocatable(size) && !HasName(disk.table, name)
      requires extents == Gaps(disk.table, disk.lo, disk.hi)
      modifies disk`table
      ensures disk.Valid()
      ensures Creates(disk.device, disk.lo, disk.hi, old(disk.table), disk.table, name, size, r)
      ensures disk.reliable ==> (r.Some? <==> CanCreate(disk.lo, disk.hi, old(disk.table), name, size))
    {
      var bytes := Capacity.Rounded(size);
      Capacity.RoundedIsLeast(size);
      var number := LowestAvailable(disk.table);
      var extent := SelectFreeExtent(extents, bytes);
      if extent.None? {
        return None;
      }
      FirstFitIsFree(disk.table, disk.lo, disk.hi, bytes);
      ghost var t := disk.table;
      var p := Part(number, extent.value.first, extent.value.last, name);
      var made := disk.MkPart(name, p.first, p.last);
      AdditionKeepsOthers(t, disk.table, name);
      if disk.reliable {
        ghost var n :| LowestFree(t, n) && disk.table == Insert(t, Part(n, p.first, p.last, name));
        LowestFreeIsUnique(t, n, number);
      }
      if !made {
        return None;
      }
      var verified := ReadBack(p, t);
      if verified {
        assert Reported(disk.device, disk.table, p, name, size, IdentityOf(disk.device, p));
        assert Placed(disk.lo, disk.hi, t, p, size);
        r := Some(IdentityOf(disk.device, p));
      } else {
        r := None;
      }
    }

    /** The table is read again: exactly the intended partition must have appeared. */
    method ReadBack(p: Part, ghost t: seq<Part>) returns (ok: bool)
      requires disk.Valid() && disk.labelled && !HasName(t, p.name)
      ensures ok ==> NamedOnce(disk.table, p)
      ensures disk.reliable && disk.table == Insert(t, p) ==> ok
    {
      var printed := disk.Print();
      if printed.None? {
        return false;
      }
      var created := PartitionsNamed(printed.value.0, p.name);
      if disk.table == Insert(t, p) {
        OnlyTheNewOne(t, disk.table, disk.lo, disk.hi, p);
      }
      if |created| != 1 {
        return false;
      }
      assert created[0] in created && NamedOnce(disk.table, created[0]);
      if created[0] != p {
        return false;
      }
      ok := disk.Works();
    }

    method DeleteVolume(name: string, identity: Option<string>) returns (ok: bool)
      requires disk.Valid()
      modifies disk`table
      ensures disk.Valid()
      ensures Deletes(disk.device, old(disk.table), disk.table, name, identity, ok)
      ensures disk.reliable ==> (ok <==> disk.labelled && CanDelete(disk.device, old(disk.table), name, identity))
    {
      var printed := disk.Print();
      if printed.None? {
        return false;
      }
      if identity.Some? {
        ok := DeleteByPath(printed.value.0, name, identity.value);
      } else {
        ok := DeleteByName(printed.value.0, name);
      }
    }

    method DeleteByPath(partitions: seq<Part>, name: string, path: string) returns (ok: bool)
      requires disk.Valid() && disk.labelled && partitions == disk.table
      modifies disk`table
      ensures disk.Valid()
      ensures Deletes(disk.device, old(disk.table), disk.table, name, Some(path), ok)
      ensures disk.reliable ==> (ok <==> CanDelete(disk.device, old(disk.table), name, Some(path)))
    {
      var number := NumberFromPath(disk.device, path);
      if number.None? {
        return false;
      }
      var target := PartitionNumbered(partitions, number.value);
      if target.None? {
        return true;
      }
      if target.value.name != name {
        return false;
      }
      ok := Remove(target.value, Some(path));
      UnsharedNumber(old(disk.table), disk.lo, disk.hi, target.value);
    }

    method DeleteByName(partitions: seq<Part>, name: string) returns (ok: bool)
      requires disk.Valid() && disk.labelled && partitions == disk.table
      modifies disk`table
      ensures disk.Valid()
      ensures Deletes(disk.device, old(disk.table), disk.table, name, None, ok)
      ensures disk.reliable ==> (ok <==> CanDelete(disk.device, old(disk.table), name, None))
    {
      var matches := PartitionsNamed(partitions, name);
      if |matches| == 0 {
        return true;
      }
      if |matches| > 1 {
        AmbiguousName(disk.table, disk.lo, disk.hi, name);
        return false;
      }
      assert matches[0] in matches && NamedOnce(disk.table, matches[0]);
      ok := Remove(matches[0], None);
    }

    method Remove(target: Part, ghost identity: Option<string>) returns (ok: bool)
      requires disk.Valid() && disk.labelled && target in disk.table
      requires identity.Some? ==> NumberFromPath(disk.device, identity.value) == Some(target.number)
      requires identity.None? ==> NamedOnce(disk.table, target)
      modifies disk`table
      ensures disk.Valid()
      ensures Deletes(disk.device, old(disk.table), disk.table, target.name, identity, ok)
      ensures disk.reliable ==> ok
    {
      assert Taken(disk.table, target.number);
      ghost var k;
      ok, k := disk.Rm(target.number);
      NumberNamesOne(old(disk.table), disk.lo, disk.hi, old(disk.table)[k], target);
      RemovalMeetsSpec(disk.device, disk.lo, disk.hi, old(disk.table), disk.table, target.name, identity, ok, k);
    }
  }

  /** The search of DeleteVolume: the row with the number, if there is one. */
  method PartitionNumbered(t: seq<Part>, number: int) returns (r: Option<Part>)
    ensures r.Some? ==> r.value in t && r.value.number == number
    ensures r.None? ==> forall p :: p in t ==> p.number != number
  {
    for i := 0 to |t|
      invariant forall j :: 0 <= j < i ==> t[j].number != number
    {
      if t[i].number == number {
        return Some(t[i]);
      }
    }
    r := None;
  }

  lemma UnsharedNumber(t: seq<Part>, lo: int, hi: int, p: Part)
    requires WellFormed(t, lo, hi) && p in t
    ensures !OwnedByOther(t, p.number, p.name)
  {
    forall q | q in t && q.number == p.number
      ensures q == p
    {
      NumberNamesOne(t, lo, hi, q, p);
    }
  }

  lemma RefusalMeetsSpec(device: string, lo: int, hi: int, t: seq<Part>, name: string, size: int)
    ensures Creates(device, lo, hi, t, t, name, size, None)
  {
  }

  /** Two rows of one name are two different partitions. */
  lemma AmbiguousName(t: seq<Part>, lo: int, hi: int, name: string)
    requires WellFormed(t, lo, hi)
    requires Repeated(t, name)
    ensures HasName(t, name) && !Unambiguous(t, name)
    ensures forall p: Part :: p.name == name ==> !NamedOnce(t, p)
  {
    var i, j :| 0 <= i < j < |t| && t[i].name == name && t[j].name == name;
    assert t[i] in t && t[j] in t && t[i] != t[j];
  }

  lemma AdditionKeepsOthers(t: seq<Part>, t': seq<Part>, name: string)
    requires t' == t || exists p :: t' == Insert(t, p) && p.name == name
    ensures forall p :: p in t ==> p in t'
  {
    if t' != t {
      var p :| t' == Insert(t, p) && p.name == name;
      InsertContents(t, p);
    }
  }

  /** After inserting under an unused name, that name has exactly one row. */
  lemma OnlyTheNewOne(t: seq<Part>, t': seq<Part>, lo: int, hi: int, p: Part)
    requires t' == Insert(t, p) && WellFormed(t', lo, hi) && !HasName(t, p.name)
    ensures NamedOnce(t', p)
    ensures !Repeated(t', p.name)
  {
    InsertContents(t, p);
    forall i, j | 0 <= i < j < |t'| && t'[i].name == p.name
      ensures t'[j].name != p.name
    {
      assert t'[i] in t' && t'[j] in t' && t'[i] != t'[j];
    }
  }

  lemma NumberNamesOne(t: seq<Part>, lo: int, hi: int, p: Part, q: Part)
    requires WellFormed(t, lo, hi) && p in t && q in t && p.number == q.number
    ensures p == q
  {
    var i :| 0 <= i < |t| && t[i] == p;
    var j :| 0 <= j < |t| && t[j] == q;
    assert i == j;
  }

  lemma RemovalMeetsSpec(device: string, lo: int, hi: int, t: seq<Part>, t': seq<Part>,
                         name: string, identity: Option<string>, ok: bool, k: nat)
    requires WellFormed(t, lo, hi) && k < |t| && t[k].name == name
    requires t' == t[..k] + t[k + 1..] || (!ok && t' == t)
    requires identity.Some? ==> NumberFromPath(device, identity.value) == Some(t[k].number)
    requires identity.None? ==> NamedOnce(t, t[k])
    ensures Deletes(device, t, t', name, identity, ok)
  {
    RemoveWellFormed(t, lo, hi, k);
    forall p | p in t && p.number == t[k].number ensures p == t[k] {
      NumberNamesOne(t, lo, hi, p, t[k]);
    }
  }

  // ---------------------------------------------------------------- runs

  datatype Op =
    | CreateOp(name: string, size: int, result: Option<VolumeIdentity>)
    | DeleteOp(name: string, identity: Option<string>, ok: bool)

  ghost predicate OpStep(device: string, lo: int, hi: int, t: seq<Part>, t': seq<Part>, op: Op) {
    match op
    case CreateOp(name, size, r) => Creates(device, lo, hi, t, t', name, size, r)
    case DeleteOp(name, identity, ok) => Deletes(device, t, t', name, identity, ok)
  }

  /** Any sequence of calls, retried or not, starting from a well-formed table. */
  ghost predicate IsRun(device: string, lo: int, hi: int, tables: seq<seq<Part>>, ops: seq<Op>) {
    && |tables| == |ops| + 1
    && WellFormed(tables[0], lo, hi)
    && forall i :: 0 <= i < |ops| ==> OpStep(device, lo, hi, tables[i], tables[i + 1], ops[i])
  }

  /** Partitions stay pairwise disjoint, in range and unique in number over every run. */
  lemma {:induction false} RunStaysWellFormed(device: string, lo: int, hi: int, tables: seq<seq<Part>>, ops: seq<Op>, i: nat)
    requires IsRun(device, lo, hi, tables, ops) && i < |tables|
    ensures WellFormed(tables[i], lo, hi)
  {
    if i > 0 {
      RunStaysWellFormed(device, lo, hi, tables, ops, i - 1);
      var t, t' := tables[i - 1], tables[i];
      assert OpStep(device, lo, hi, t, tables[(i - 1) + 1], ops[i - 1]);
      if ops[i - 1].DeleteOp? && t' != t {
        var k :| 0 <= k < |t| && t' == t[..k] + t[k + 1..];
        RemoveWellFormed(t, lo, hi, k);
      }
    }
  }

  ghost predicate NamesUnique(t: seq<Part>) {
    forall p, q :: p in t && q in t && p.name == q.name ==> p == q
  }

  /** Volume names stay unique, so a name leads to one partition over every run. */
  lemma {:induction false} RunKeepsNamesUnique(device: string, lo: int, hi: int, tables: seq<seq<Part>>, ops: seq<Op>, i: nat)
    requires IsRun(device, lo, hi, tables, ops) && i < |tables| && NamesUnique(tables[0])
    ensures NamesUnique(tables[i])
  {
    if i > 0 {
      RunKeepsNamesUnique(device, lo, hi, tables, ops, i - 1);
      RunStaysWellFormed(device, lo, hi, tables, ops, i - 1);
      StepKeepsNamesUnique(device, lo, hi, tables[i - 1], tables[(i - 1) + 1], ops[i - 1]);
    }
  }

  lemma StepKeepsNamesUnique(device: string, lo: int, hi: int, t: seq<Part>, t': seq<Part>, op: Op)
    requires WellFormed(t, lo, hi) && OpStep(device, lo, hi, t, t', op) && NamesUnique(t)
    ensures NamesUnique(t')
  {
    if t' != t {
      match op
      case CreateOp(name, size, r) =>
        var n :| t' == Insert(t, n) && n.name == name;
        InsertContents(t, n);
      case DeleteOp(name, identity, ok) =>
        var k :| 0 <= k < |t| && t' == t[..k] + t[k + 1..];
        RemoveWellFormed(t, lo, hi, k);
    }
  }

  /** mkpart put the new partition, if there is one, exactly where it was told. */
  ghost predicate Obedient(lo: int, hi: int, t: seq<Part>, t': seq<Part>, op: Op) {
    op.CreateOp? && t' != t ==> exists p :: t' == Insert(t, p) && Placed(lo, hi, t, p, op.size)
  }

  ghost predicate AllAligned(t: seq<Part>) {
    forall p :: p in t ==> p.first % ALIGNMENT == 0
  }

  /** With an obedient parted every partition is aligned over every run, failed calls included. */
  lemma {:induction false} RunStaysAligned(device: string, lo: int, hi: int, tables: seq<seq<Part>>, ops: seq<Op>, i: nat)
    requires IsRun(device, lo, hi, tables, ops) && i < |tables| && AllAligned(tables[0])
    requires forall j :: 0 <= j < |ops| ==> Obedient(lo, hi, tables[j], tables[j + 1], ops[j])
    ensures AllAligned(tables[i])
  {
    if i > 0 {
      RunStaysAligned(device, lo, hi, tables, ops, i - 1);
      RunStaysWellFormed(device, lo, hi, tables, ops, i - 1);
      assert Obedient(lo, hi, tables[i - 1], tables[(i - 1) + 1], ops[i - 1]);
      StepStaysAligned(device, lo, hi, tables[i - 1], tables[i], ops[i - 1]);
    }
  }

  lemma StepStaysAligned(device: string, lo: int, hi: int, t: seq<Part>, t': seq<Part>, op: Op)
    requires WellFormed(t, lo, hi) && OpStep(device, lo, hi, t, t', op) && AllAligned(t) && Obedient(lo, hi, t, t', op)
    ensures AllAligned(t')
  {
    if t' != t {
      match op
      case CreateOp(name, size, r) =>
        var n :| t' == Insert(t, n) && Placed(lo, hi, t, n, size);
        InsertContents(t, n);
        Capacity.RoundedIsLeast(size);
        FirstFitIsFree(t, lo, hi, Capacity.Rounded(size));
      case DeleteOp(name, identity, ok) =>
        var k :| 0 <= k < |t| && t' == t[..k] + t[k + 1..];
        RemoveWellFormed(t, lo, hi, k);
    }
  }

  lemma StepKeepsOthers(device: string, lo: int, hi: int, t: seq<Part>, t': seq<Part>, op: Op, p: Part)
    requires WellFormed(t, lo, hi) && OpStep(device, lo, hi, t, t', op) && p in t
    requires !(op.DeleteOp? && op.name == p.name)
    ensures p in t'
  {
    if op.DeleteOp? && t' != t {
      var k :| 0 <= k < |t| && t' == t[..k] + t[k + 1..] && t[k].name == op.name;
      RemoveWellFormed(t, lo, hi, k);
    }
  }

  /** A partition keeps its number and bounds until a deletion of its own name. */
  lemma {:induction false} SurvivesOtherVolumes(device: string, lo: int, hi: int, tables: seq<seq<Part>>, ops: seq<Op>,
                                                i: nat, j: nat, p: Part)
    requires IsRun(device, lo, hi, tables, ops) && i <= j < |tables| && p in tables[i]
    requires forall k :: i <= k < j ==> !(ops[k].DeleteOp? && ops[k].name == p.name)
    ensures p in tables[j]
    decreases j - i
  {
    if i < j {
      RunStaysWellFormed(device, lo, hi, tables, ops, i);
      StepKeepsOthers(device, lo, hi, tables[i], tables[i + 1], ops[i], p);
      SurvivesOtherVolumes(device, lo, hi, tables, ops, i + 1, j, p);
    }
  }

  /** A retried create returns the identical identity, whatever happened to other volumes. */
  lemma RetryReturnsSameIdentity(device: string, lo: int, hi: int, tables: seq<seq<Part>>, ops: seq<Op>,
                                 i: nat, j: nat, name: string, size: int, size': int, id: VolumeIdentity, id': VolumeIdentity)
    requires IsRun(device, lo, hi, tables, ops) && i < j < |ops|
    requires ops[i] == CreateOp(name, size, Some(id)) && ops[j] == CreateOp(name, size', Some(id'))
    requires forall k :: i < k < j ==> !(ops[k].DeleteOp? && ops[k].name == name)
    ensures id' == id && tables[j + 1] == tables[j] && Capacity.Rounded(size') == Capacity.Rounded(size)
  {
    assert OpStep(device, lo, hi, tables[i], tables[i + 1], ops[i]);
    var p :| Reported(device, tables[i + 1], p, name, size, id);
    SurvivesOtherVolumes(device, lo, hi, tables, ops, i + 1, j, p);
    assert HasName(tables[j], name);
    assert OpStep(device, lo, hi, tables[j], tables[j + 1], ops[j]);
    var q :| Reported(device, tables[j + 1], q, name, size', id');
    assert q == p;
  }

  /** A volume that did not exist is carved on whole-MiB boundaries, and 4 MiB units. */
  lemma CreatedIsAligned(device: string, lo: int, hi: int, t: seq<Part>, t': seq<Part>, name: string, size: int, id: VolumeIdentity)
    requires WellFormed(t, lo, hi) && Creates(device, lo, hi, t, t', name, size, Some(id)) && !HasName(t, name)
    ensures exists p :: Reported(device, t', p, name, size, id)
                        && p.first % ALIGNMENT == 0 && Length(p) % Capacity.UNIT == 0 && ApartFromAll(t, p.first, p.last)
  {
    var p :| Reported(device, t', p, name, size, id) && Placed(lo, hi, t, p, size);
    Capacity.RoundedIsLeast(size);
    FirstFitIsFree(t, lo, hi, Capacity.Rounded(size));
  }

  /** Deleting with the identity its creation returned leaves no partition of that name, however
      often the creation was retried in between. */
  lemma DeleteUndoesCreate(device: string, lo: int, hi: int, tables: seq<seq<Part>>, ops: seq<Op>,
                           i: nat, j: nat, name: string, size: int, id: VolumeIdentity)
    requires IsRun(device, lo, hi, tables, ops) && i < j < |ops|
    requires ops[i] == CreateOp(name, size, Some(id)) && ops[j] == DeleteOp(name, Some(id.backendVolumeId), true)
    requires forall k :: i < k < j ==> ops[k].name != name || ops[k].CreateOp?
    requires forall p :: p in tables[i + 1] ==> p.number <= Capacity.MAX_INT64
    ensures !HasName(tables[j + 1], name)
  {
    assert OpStep(device, lo, hi, tables[i], tables[i + 1], ops[i]);
    var p :| Reported(device, tables[i + 1], p, name, size, id);
    SurvivesOtherVolumes(device, lo, hi, tables, ops, i + 1, j, p);
    OnlyOneStays(device, lo, hi, tables, ops, i + 1, j, p);
    PathRoundTrip(device, p.number);
    RunStaysWellFormed(device, lo, hi, tables, ops, j);
    var t, t' := tables[j], tables[j + 1];
    assert OpStep(device, lo, hi, t, t', ops[j]);
    if t' != t {
      var k :| 0 <= k < |t| && t' == t[..k] + t[k + 1..];
      RemoveWellFormed(t, lo, hi, k);
    }
  }

  lemma {:induction false} OnlyOneStays(device: string, lo: int, hi: int, tables: seq<seq<Part>>, ops: seq<Op>, i: nat, j: nat, p: Part)
    requires IsRun(device, lo, hi, tables, ops) && i <= j < |tables| && NamedOnce(tables[i], p)
    requires forall k :: i <= k < j ==> ops[k].name != p.name || ops[k].CreateOp?
    ensures NamedOnce(tables[j], p)
    decreases j - i
  {
    if i < j {
      var t, t' := tables[i], tables[i + 1];
      assert OpStep(device, lo, hi, t, t', ops[i]);
      RunStaysWellFormed(device, lo, hi, tables, ops, i);
      StepKeepsOthers(device, lo, hi, t, t', ops[i], p);
      StepAddsNoNamesake(device, lo, hi, t, t', ops[i], p);
      OnlyOneStays(device, lo, hi, tables, ops, i + 1, j, p);
    }
  }

  lemma StepAddsNoNamesake(device: string, lo: int, hi: int, t: seq<Part>, t': seq<Part>, op: Op, p: Part)
    requires WellFormed(t, lo, hi) && OpStep(device, lo, hi, t, t', op)
    requires op.name != p.name || (op.CreateOp? && HasName(t, p.name))
    ensures forall q :: q in t' && q.name == p.name ==> q in t
  {
    if t' != t {
      match op
      case CreateOp(name, size, r) =>
        var n :| t' == Insert(t, n) && n.name == name;
        InsertContents(t, n);
      case DeleteOp(name, identity, ok) =>
        var k :| 0 <= k < |t| && t' == t[..k] + t[k + 1..];
        RemoveWellFormed(t, lo, hi, k);
    }
  }
}
