/**
 The scheduler and one partitioned disk together, over whole runs.

 The scheduler machine takes its steps; in between, agents create and delete volumes for
 objects of the machine, through calls of the parted manager that may fail after taking effect.
 Every run is a run of the books machine, so its account is theirs.
 */
module CarvingRuns {
  import opened Options
  import opened PartedTable
  import opened CapacityBooks
  import PV = PartedVolumes
  import R = Reservation
  import SB = StoreBooks
  import Capacity

  /** A disk, and how the books know it. */
  datatype Site = Site(device: string, lo: int, hi: int, store: SB.Site)

  datatype Books = Books(manager: R.State, table: seq<Part>)

  datatype Step =
    | Schedule(step: R.Step)
    | Carve(k: nat, result: Option<PV.VolumeIdentity>)
    | Erase(k: nat, identity: Option<string>, ok: bool)

  function NameOf(site: Site, b: Books, k: nat): string
    requires k < |b.manager.partitions|
  {
    site.store.nameOf(b.manager.partitions[k].uid)
  }

  ghost predicate Next(site: Site, b: Books, b': Books, step: Step) {
    match step
    case Schedule(st) =>
      && R.Next(b.manager, b'.manager, st) && b'.table == b.table
      && (st.Remove? && st.k < |b.manager.partitions| ==> !PV.HasName(b.table, NameOf(site, b, st.k)))
    case Carve(k, r) =>
      && k < |b.manager.partitions| && SB.PlacedHere(site.store, b.manager.partitions[k]) && b'.manager == b.manager
      && PV.Creates(site.device, site.lo, site.hi, b.table, b'.table, NameOf(site, b, k), b.manager.partitions[k].size, r)
    case Erase(k, identity, ok) =>
      && k < |b.manager.partitions| && b'.manager == b.manager
      && PV.Deletes(site.device, b.table, b'.table, NameOf(site, b, k), identity, ok)
  }

  /** A new disk, and whatever the scheduler starts from. */
  ghost predicate IsRun(site: Site, run: seq<Books>, steps: seq<Step>) {
    && |run| == |steps| + 1
    && R.Init(run[0].manager) && run[0].table == [] && 0 <= site.lo
    && forall i :: 0 <= i < |steps| ==> Next(site, run[i], run[i + 1], steps[i])
  }

  // ---------------------------------------------------------------- refinement

  function VolumesOf(t: seq<Part>): (vs: seq<SB.Volume>)
    ensures |vs| == |t| && forall i :: 0 <= i < |t| ==> vs[i] == SB.Volume(t[i].name, Length(t[i]))
  {
    seq(|t|, i requires 0 <= i < |t| => SB.Volume(t[i].name, Length(t[i])))
  }

  function Abs(b: Books): SB.Books {
    SB.Books(b.manager, VolumesOf(b.table))
  }

  function AbsStep(b: Books, b': Books, step: Step): SB.Step {
    match step
    case Schedule(st) => SB.Schedule(st)
    case Carve(k, _) => if b'.table == b.table then SB.Idle else SB.Add(k, Carved(b'.table) - Carved(b.table))
    case Erase(_, _, _) => if b'.table == b.table then SB.Idle else SB.Drop
  }

  lemma {:induction false} AmountIsCarved(t: seq<Part>)
    ensures SB.Amount(VolumesOf(t)) == Carved(t)
  {
    if t != [] {
      AmountIsCarved(t[1..]);
      assert VolumesOf(t)[1..] == VolumesOf(t[1..]);
    }
  }

  lemma SameNames(t: seq<Part>, name: string)
    ensures SB.HasVolume(VolumesOf(t), name) <==> PV.HasName(t, name)
  {
    if PV.HasName(t, name) {
      var p :| p in t && p.name == name;
      var i :| 0 <= i < |t| && t[i] == p;
      assert VolumesOf(t)[i].name == name;
    }
  }

  /** Where a row goes, and what it adds. */
  lemma {:induction false} InsertPosition(t: seq<Part>, p: Part) returns (i: nat)
    ensures i <= |t| && Insert(t, p) == t[..i] + [p] + t[i..]
    ensures Carved(Insert(t, p)) == Carved(t) + Length(p)
  {
    if t == [] || p.first < t[0].first {
      i := 0;
      assert Insert(t, p)[1..] == t;
    } else {
      i := InsertPosition(t[1..], p);
      assert Insert(t, p)[1..] == Insert(t[1..], p);
      i := i + 1;
    }
  }

  /** Row `n` was added for object `k`. */
  ghost predicate Adds(site: Site, b: Books, b': Books, k: nat, n: Part) {
    && b'.manager == b.manager && k < |b.manager.partitions| && SB.PlacedHere(site.store, b.manager.partitions[k])
    && b'.table == Insert(b.table, n) && n.name == NameOf(site, b, k) && !PV.HasName(b.table, n.name)
    && Carved(b'.table) - Carved(b.table) == Length(n) && n in b'.table && WellFormed(b'.table, site.lo, site.hi)
  }

  lemma AddedRow(site: Site, b: Books, b': Books, k: nat, r: Option<PV.VolumeIdentity>) returns (n: Part)
    requires Next(site, b, b', Carve(k, r)) && b'.table != b.table
    ensures Adds(site, b, b', k, n)
  {
    n :| b'.table == Insert(b.table, n) && n.name == NameOf(site, b, k) && WellFormed(b'.table, site.lo, site.hi);
    InsertContents(b.table, n);
    var i := InsertPosition(b.table, n);
  }

  lemma VolumesWithRow(t: seq<Part>, p: Part, i: nat)
    requires i <= |t|
    ensures VolumesOf(t[..i] + [p] + t[i..]) == VolumesOf(t)[..i] + [SB.Volume(p.name, Length(p))] + VolumesOf(t)[i..]
  {
  }

  lemma VolumesGrow(t: seq<Part>, p: Part)
    ensures SB.Inserted(VolumesOf(t), VolumesOf(Insert(t, p)), SB.Volume(p.name, Length(p)))
  {
    var i := InsertPosition(t, p);
    VolumesWithRow(t, p, i);
  }

  lemma RowIsAdded(site: Site, b: Books, b': Books, k: nat, n: Part)
    requires b'.manager == b.manager && k < |b.manager.partitions| && SB.PlacedHere(site.store, b.manager.partitions[k])
    requires b'.table == Insert(b.table, n) && n.name == NameOf(site, b, k) && !PV.HasName(b.table, n.name)
    ensures SB.Next(site.store, Abs(b), Abs(b'), SB.Add(k, Length(n)))
  {
    SameNames(b.table, n.name);
    VolumesGrow(b.table, n);
  }

  lemma AddsRefines(site: Site, b: Books, b': Books, k: nat, n: Part)
    requires Adds(site, b, b', k, n)
    ensures SB.Next(site.store, Abs(b), Abs(b'), SB.Add(k, Carved(b'.table) - Carved(b.table)))
  {
    RowIsAdded(site, b, b', k, n);
  }

  lemma CarveRefines(site: Site, b: Books, b': Books, k: nat, r: Option<PV.VolumeIdentity>)
    requires Next(site, b, b', Carve(k, r)) && b'.table != b.table
    ensures SB.Next(site.store, Abs(b), Abs(b'), SB.Add(k, Carved(b'.table) - Carved(b.table)))
  {
    var n := AddedRow(site, b, b', k, r);
    AddsRefines(site, b, b', k, n);
  }

  lemma RowIsDropped(site: Site, b: Books, b': Books, i: nat)
    requires b'.manager == b.manager && i < |b.table| && b'.table == b.table[..i] + b.table[i + 1..]
    ensures SB.Next(site.store, Abs(b), Abs(b'), SB.Drop)
  {
    assert VolumesOf(b'.table) == VolumesOf(b.table)[..i] + VolumesOf(b.table)[i + 1..];
  }

  lemma ErasedRow(site: Site, b: Books, b': Books, k: nat, identity: Option<string>, ok: bool) returns (i: nat)
    requires Next(site, b, b', Erase(k, identity, ok)) && b'.table != b.table
    ensures i < |b.table| && b'.table == b.table[..i] + b.table[i + 1..]
  {
    i :| 0 <= i < |b.table| && b'.table == b.table[..i] + b.table[i + 1..];
  }

  lemma StepRefines(site: Site, b: Books, b': Books, step: Step)
    requires Next(site, b, b', step)
    ensures SB.Next(site.store, Abs(b), Abs(b'), AbsStep(b, b', step))
  {
    match step
    case Schedule(st) =>
      if st.Remove? && st.k < |b.manager.partitions| {
        SameNames(b.table, NameOf(site, b, st.k));
      }
    case Carve(k, r) =>
      if b'.table != b.table {
        CarveRefines(site, b, b', k, r);
      }
    case Erase(k, identity, ok) =>
      if b'.table != b.table {
        var i := ErasedRow(site, b, b', k, identity, ok);
        RowIsDropped(site, b, b', i);
      }
  }

  function AbsRun(run: seq<Books>): (r: seq<SB.Books>)
    ensures |r| == |run| && forall i :: 0 <= i < |run| ==> r[i] == Abs(run[i])
  {
    seq(|run|, i requires 0 <= i < |run| => Abs(run[i]))
  }

  function AbsSteps(run: seq<Books>, steps: seq<Step>): (r: seq<SB.Step>)
    requires |run| == |steps| + 1
    ensures |r| == |steps| && forall i :: 0 <= i < |steps| ==> r[i] == AbsStep(run[i], run[i + 1], steps[i])
  {
    seq(|steps|, i requires 0 <= i < |steps| => AbsStep(run[i], run[i + 1], steps[i]))
  }

  /** Every run on the disk is a run of the books. */
  lemma RunRefines(site: Site, run: seq<Books>, steps: seq<Step>)
    requires IsRun(site, run, steps)
    ensures SB.IsRun(site.store, AbsRun(run), AbsSteps(run, steps))
  {
    forall i | 0 <= i < |steps|
      ensures SB.Next(site.store, AbsRun(run)[i], AbsRun(run)[i + 1], AbsSteps(run, steps)[i])
    {
      StepRefines(site, run[i], run[i + 1], steps[i]);
    }
  }

  // ---------------------------------------------------------------- the account

  /** Every row on the disk belongs to one assigned object and has its rounded size. */
  ghost predicate Accounted(site: Site, b: Books) {
    SB.Accounted(site.store, Abs(b))
  }

  /** A row that appears has the length that was asked for. */
  predicate RightLength(b: Books, b': Books, step: Step) {
    step.Carve? && b'.table != b.table && step.k < |b.manager.partitions| ==>
      Carved(b'.table) - Carved(b.table) == Capacity.Rounded(b.manager.partitions[step.k].size)
  }

  ghost predicate AllAccounted(site: Site, run: seq<Books>) {
    forall i :: 0 <= i < |run| ==> Accounted(site, run[i])
  }

  predicate AllRight(run: seq<Books>, steps: seq<Step>)
    requires |run| == |steps| + 1
  {
    forall i :: 0 <= i < |steps| ==> RightLength(run[i], run[i + 1], steps[i])
  }

  lemma RefinedAccountIff(site: Site, run: seq<Books>)
    ensures AllAccounted(site, run) <==> forall i :: 0 <= i < |run| ==> SB.AccountedAt(site.store, AbsRun(run))[i]
  {
    var held := SB.AccountedAt(site.store, AbsRun(run));
    assert forall i :: 0 <= i < |run| ==> held[i] == Accounted(site, run[i]);
  }

  lemma RefinedSizesIff(run: seq<Books>, steps: seq<Step>)
    requires |run| == |steps| + 1
    ensures AllRight(run, steps) <==> forall i :: 0 <= i < |steps| ==> SB.RightAt(AbsRun(run), AbsSteps(run, steps))[i]
  {
    var right := SB.RightAt(AbsRun(run), AbsSteps(run, steps));
    assert forall i :: 0 <= i < |steps| ==> right[i] == RightLength(run[i], run[i + 1], steps[i]);
  }

  /** Over a whole run every row is accounted for exactly when every row that a create adds,
      failed calls included, has the length that was asked for. */
  lemma AccountedRunIff(site: Site, run: seq<Books>, steps: seq<Step>)
    requires IsRun(site, run, steps) && SB.Injective(site.store)
    ensures AllAccounted(site, run) <==> AllRight(run, steps)
  {
    RunRefines(site, run, steps);
    SB.AccountedRunIff(site.store, AbsRun(run), AbsSteps(run, steps));
    RefinedAccountIff(site, run);
    RefinedSizesIff(run, steps);
  }

  /** A reported success has read the row back, so only failed calls can break the account. */
  lemma SuccessHasRightLength(site: Site, b: Books, b': Books, k: nat, id: PV.VolumeIdentity)
    requires Next(site, b, b', Carve(k, Some(id)))
    ensures RightLength(b, b', Carve(k, Some(id)))
  {
    if b'.table != b.table {
      var n := AddedRow(site, b, b', k, Some(id));
      var p :| PV.Reported(site.device, b'.table, p, n.name, b.manager.partitions[k].size, id);
      assert p == n;
    }
  }

  /** The disk tool put the new row, if there is one, exactly where it was told. */
  ghost predicate Obedient(site: Site, b: Books, b': Books, step: Step) {
    step.Carve? && step.k < |b.manager.partitions| ==>
      PV.Obedient(site.lo, site.hi, b.table, b'.table,
                  PV.CreateOp(NameOf(site, b, step.k), b.manager.partitions[step.k].size, step.result))
  }

  lemma ObedientHasRightLength(site: Site, b: Books, b': Books, step: Step)
    requires WellFormed(b.table, site.lo, site.hi) && Next(site, b, b', step) && Obedient(site, b, b', step)
    ensures RightLength(b, b', step)
  {
    if step.Carve? && b'.table != b.table {
      var size := b.manager.partitions[step.k].size;
      var p :| b'.table == Insert(b.table, p) && PV.Placed(site.lo, site.hi, b.table, p, size);
      var i := InsertPosition(b.table, p);
      Capacity.RoundedIsLeast(size);
      assert Capacity.Allocatable(size);
      FirstFitIsFree(b.table, site.lo, site.hi, Capacity.Rounded(size));
    }
  }

  /** In every state of every run in which added rows have the right length, the bytes carved on the
      disk equal the scheduler's account of the carved partitions, whatever names were reused. */
  lemma BooksBalance(site: Site, run: seq<Books>, steps: seq<Step>, i: nat)
    requires IsRun(site, run, steps) && SB.Injective(site.store) && i < |run| && AllRight(run, steps)
    ensures var ps := run[i].manager.partitions;
            Carved(run[i].table) == SB.UsedBy(ps, SB.NamesFor(site.store, ps), site.store.serial, SB.NamesOf(VolumesOf(run[i].table)))
  {
    RunRefines(site, run, steps);
    RefinedSizesIff(run, steps);
    SB.BooksBalance(site.store, AbsRun(run), AbsSteps(run, steps), i);
    AmountIsCarved(run[i].table);
  }

  ghost predicate AllReuseSafe(run: seq<Books>, steps: seq<Step>)
    requires |run| == |steps| + 1
  {
    forall j :: 0 <= j < |steps| && steps[j].Schedule? ==> R.ReuseSafe(run[j].manager, steps[j].step)
  }

  /** And if no name under reservation is reused for a larger partition, they never exceed the device
      total, and leave room for each assigned partition that is not carved yet. */
  lemma BooksFit(site: Site, run: seq<Books>, steps: seq<Step>, i: nat, k: nat)
    requires IsRun(site, run, steps) && SB.Injective(site.store) && i < |run| && AllRight(run, steps) && AllReuseSafe(run, steps)
    ensures Carved(run[i].table) <= R.Total(run[i].manager, site.store.serial)
    ensures var ps := run[i].manager.partitions;
            k < |ps| && SB.PlacedHere(site.store, ps[k]) && !PV.HasName(run[i].table, NameOf(site, run[i], k)) ==>
              Carved(run[i].table) + Capacity.Rounded(ps[k].size) <= R.Total(run[i].manager, site.store.serial)
  {
    RunRefines(site, run, steps);
    RefinedSizesIff(run, steps);
    forall j | 0 <= j < |steps| && AbsSteps(run, steps)[j].Schedule?
      ensures R.ReuseSafe(AbsRun(run)[j].manager, AbsSteps(run, steps)[j].step)
    {
      assert steps[j].Schedule? && R.ReuseSafe(run[j].manager, steps[j].step);
    }
    SB.BooksFit(site.store, AbsRun(run), AbsSteps(run, steps), i, k);
    AmountIsCarved(run[i].table);
    if k < |run[i].manager.partitions| {
      SameNames(run[i].table, NameOf(site, run[i], k));
    }
  }

  // ---------------------------------------------------------------- creation only

  lemma StepStaysWellFormed(site: Site, b: Books, b': Books, step: Step)
    requires Next(site, b, b', step) && WellFormed(b.table, site.lo, site.hi)
    ensures WellFormed(b'.table, site.lo, site.hi)
  {
    if b'.table != b.table {
      match step
      case Carve(k, r) =>
        var n := AddedRow(site, b, b', k, r);
      case Erase(k, identity, ok) =>
        var i := ErasedRow(site, b, b', k, identity, ok);
        RemoveWellFormed(b.table, site.lo, site.hi, i);
    }
  }

  lemma StaysWellFormedAt(site: Site, run: seq<Books>, steps: seq<Step>, i: nat)
    requires IsRun(site, run, steps) && i < |steps| && WellFormed(run[i].table, site.lo, site.hi)
    ensures WellFormed(run[i + 1].table, site.lo, site.hi)
  {
    StepStaysWellFormed(site, run[i], run[i + 1], steps[i]);
  }

  lemma {:induction false} RunStaysWellFormed(site: Site, run: seq<Books>, steps: seq<Step>, i: nat)
    requires IsRun(site, run, steps) && i < |run|
    ensures WellFormed(run[i].table, site.lo, site.hi)
  {
    if i > 0 {
      RunStaysWellFormed(site, run, steps, i - 1);
      StaysWellFormedAt(site, run, steps, i - 1);
    }
  }

  /** While volumes are only created, and where they should be, the table stays packed. */
  lemma {:induction false} CreationOnlyStaysPacked(site: Site, run: seq<Books>, steps: seq<Step>, i: nat)
    requires IsRun(site, run, steps) && i < |run| && 0 < site.lo <= ALIGNMENT <= site.hi
    requires forall j :: 0 <= j < |steps| ==> !steps[j].Erase? && Obedient(site, run[j], run[j + 1], steps[j])
    ensures PackedFrom(run[i].table, ALIGNMENT)
  {
    if i > 0 {
      CreationOnlyStaysPacked(site, run, steps, i - 1);
      var b, b', step := run[i - 1], run[i], steps[i - 1];
      assert Next(site, run[i - 1], run[(i - 1) + 1], steps[i - 1]);
      assert Obedient(site, run[i - 1], run[(i - 1) + 1], steps[i - 1]);
      if step.Carve? && b'.table != b.table {
        CreatePacks(site.device, site.lo, site.hi, b.table, b'.table, NameOf(site, b, step.k), b.manager.partitions[step.k].size, step.result);
      }
    }
  }

  /** In every state of every such run on a GPT disk, first fit finds room for every reservation
      the scheduler made and nobody carved yet. */
  lemma ReservationCanBeCarved(site: Site, run: seq<Books>, steps: seq<Step>, i: nat, k: nat, raw: int, sector: int)
    requires IsRun(site, run, steps) && SB.Injective(site.store) && i < |run| && AllReuseSafe(run, steps)
    requires forall j :: 0 <= j < |steps| ==> !steps[j].Erase? && Obedient(site, run[j], run[j + 1], steps[j])
    requires raw >= 128 * 1024 * 1024 && (sector == 512 || sector == 4096)
    requires site.lo == GptFirst(sector) && site.hi == GptLast(raw, sector)
    requires R.Total(run[i].manager, site.store.serial) == Capacity.Advertised(raw)
    requires k < |run[i].manager.partitions| && SB.PlacedHere(site.store, run[i].manager.partitions[k])
    requires !PV.HasName(run[i].table, NameOf(site, run[i], k))
    ensures FirstFit(Gaps(run[i].table, site.lo, site.hi), Capacity.Rounded(run[i].manager.partitions[k].size)).Some?
  {
    forall j | 0 <= j < |steps|
      ensures RightLength(run[j], run[j + 1], steps[j])
    {
      RunStaysWellFormed(site, run, steps, j);
      ObedientHasRightLength(site, run[j], run[j + 1], steps[j]);
    }
    BooksFit(site, run, steps, i, k);
    CreationOnlyStaysPacked(site, run, steps, i);
    RunRefines(site, run, steps);
    SB.RunKeepsBasic(site.store, AbsRun(run), AbsSteps(run, steps), i);
    var p := run[i].manager.partitions[k];
    assert p in run[i].manager.partitions;
    Capacity.RoundedIsLeast(p.size);
    AdmittedFits(raw, sector, run[i].table, Capacity.Rounded(p.size));
  }

  // ---------------------------------------------------------------- a misplaced row

  /** A create that fails after the disk tool made a row of its own size leaves bytes that no
      account explains: here a row of one byte for an object of one unit. */
  lemma MisplacedRowBreaksAccount(site: Site, s: R.State) returns (run: seq<Books>, steps: seq<Step>)
    requires R.Init(s) && SB.Injective(site.store) && 0 <= site.lo <= site.hi
    requires |s.partitions| > 0 && SB.PlacedHere(site.store, s.partitions[0])
    ensures IsRun(site, run, steps) && |run| == 2 && Carved(run[1].table) == 1 && !Accounted(site, run[1])
  {
    var row := Part(1, site.lo, site.lo, site.store.nameOf(s.partitions[0].uid));
    assert s.partitions[0] in s.partitions;
    assert Insert([], row) == [row];
    assert [row][1..] == [];
    assert WellFormed([row], site.lo, site.hi);
    assert PV.Creates(site.device, site.lo, site.hi, [], [row], row.name, s.partitions[0].size, None);
    run, steps := [Books(s, []), Books(s, [row])], [Carve(0, None)];
    assert Next(site, run[0], run[0 + 1], steps[0]);
    Capacity.RoundedIsLeast(s.partitions[0].size);
    assert !RightLength(run[0], run[0 + 1], steps[0]);
    AccountedRunIff(site, run, steps);
    assert Accounted(site, run[0]);
  }
}
