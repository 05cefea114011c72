/**
 Deletions can defeat a reservation: a run of the scheduler and a GPT disk after which a partition
 that the scheduler has admitted and assigned has no place to go.
 */
module Fragmentation {
  import opened Options
  import opened Bytes
  import opened PartedTable
  import opened PartedVolumes
  import opened CapacityBooks
  import opened Runs
  import R = Reservation
  import RP = ReservationProgress
  import PA = PlacementAuth
  import SB = StoreBooks
  import CR = CarvingRuns
  import Capacity

  const RAW: int := 128 * 1024 * 1024
  const LO: int := GptFirst(512)
  const HI: int := GptLast(RAW, 512)

  /** Rows are numbered in disk order from one. */
  ghost predicate Numbered(t: seq<Part>) {
    forall i :: 0 <= i < |t| ==> t[i].number == i + 1
  }

  lemma NextNumber(t: seq<Part>)
    requires Numbered(t)
    ensures LowestFree(t, |t| + 1)
  {
    forall m | 1 <= m < |t| + 1
      ensures Taken(t, m)
    {
      assert t[m - 1].number == m;
    }
  }

  /** The row a create appends to a packed table. */
  function NextRow(t: seq<Part>, name: string, size: int): Part {
    var first := ALIGNMENT + Carved(t);
    Part(|t| + 1, first, first + Capacity.Rounded(size) - 1, name)
  }

  ghost predicate Tidy(t: seq<Part>) {
    WellFormed(t, LO, HI) && PackedFrom(t, ALIGNMENT) && Numbered(t)
  }

  lemma NextRowFits(t: seq<Part>, name: string, size: int)
    requires Tidy(t) && Capacity.Allocatable(size) && ALIGNMENT + Carved(t) + Capacity.Rounded(size) - 1 <= HI
    ensures Placed(LO, HI, t, NextRow(t, name, size), size)
    ensures Insert(t, NextRow(t, name, size)) == t + [NextRow(t, name, size)] && Tidy(t + [NextRow(t, name, size)])
    ensures Carved(t + [NextRow(t, name, size)]) == Carved(t) + Capacity.Rounded(size)
  {
    var p := NextRow(t, name, size);
    Capacity.RoundedIsLeast(size);
    PackedFirstFit(t, LO, HI, Capacity.Rounded(size));
    NextNumber(t);
    PlacedPacks(LO, HI, t, p, size);
    FirstFitIsFree(t, LO, HI, Capacity.Rounded(size));
    assert forall q :: q in t ==> q.number != p.number;
    InsertWellFormed(t, LO, HI, p);
  }

  lemma AppendCreates(t: seq<Part>, name: string, size: int)
    requires Tidy(t) && Capacity.Allocatable(size) && ALIGNMENT + Carved(t) + Capacity.Rounded(size) - 1 <= HI && !HasName(t, name)
    ensures Tidy(t + [NextRow(t, name, size)]) && Carved(t + [NextRow(t, name, size)]) == Carved(t) + Capacity.Rounded(size)
    ensures Creates("/dev/x", LO, HI, t, t + [NextRow(t, name, size)], name, size, Some(IdentityOf("/dev/x", NextRow(t, name, size))))
    ensures Obedient(LO, HI, t, t + [NextRow(t, name, size)], CreateOp(name, size, Some(IdentityOf("/dev/x", NextRow(t, name, size)))))
  {
    var p := NextRow(t, name, size);
    NextRowFits(t, name, size);
    var t' := t + [p];
    assert NamedOnce(t', p);
    assert Reported("/dev/x", t', p, name, size, IdentityOf("/dev/x", p));
  }

  lemma WholeUnits(n: int)
    requires 0 < n <= 31
    ensures Capacity.Allocatable(n * Capacity.UNIT) && Capacity.Rounded(n * Capacity.UNIT) == n * Capacity.UNIT
  {
    Capacity.WholeUnitsAreRounded(n * Capacity.UNIT);
  }

  // ---------------------------------------------------------------- the scene

  const U: int := Capacity.UNIT

  function UidName(uid: GoString): (name: string)
    ensures |name| == |uid| && forall i :: 0 <= i < |uid| ==> name[i] == uid[i] as int as char
  {
    seq(|uid|, i requires 0 <= i < |uid| => uid[i] as int as char)
  }

  lemma UidNamesDiffer(store: SB.Site)
    requires store.nameOf == UidName
    ensures SB.Injective(store)
  {
    forall u, v | UidName(u) == UidName(v)
      ensures u == v
    {
      assert forall i :: 0 <= i < |u| ==> UidName(u)[i] == UidName(v)[i];
    }
  }

  const SITE := CR.Site("/dev/x", LO, HI, SB.Site([7], UidName))
  const DEVICE := R.Device([7], [8], PA.ClaimRef([9], [9], [9]), true)

  /** An object of `units` units, assigned to the device. */
  function Assigned(uid: GoString, name: string, units: int): R.Partition {
    R.Partition(name, uid, units * U, 0, 1, false, Some(R.PlacementOn(DEVICE)), None, None)
  }

  const P1 := Assigned([1], "a", 1)
  const P2 := Assigned([2], "b", 1)
  const P3 := Assigned([3], "c", 1)
  const P4 := Assigned([4], "d", 28)

  /** The four objects take up all 31 units that the disk advertises. */
  function Manager(ps: seq<R.Partition>): R.State {
    R.State(ps, map["x" := DEVICE], map[[7] := 31 * U], map[], map[], 1, {[1], [2], [3], [4]})
  }

  const A := Part(1, ALIGNMENT, ALIGNMENT + U - 1, UidName([1]))
  const B := Part(2, ALIGNMENT + U, ALIGNMENT + 2 * U - 1, UidName([2]))
  const C := Part(3, ALIGNMENT + 2 * U, ALIGNMENT + 3 * U - 1, UidName([3]))
  const D := Part(4, ALIGNMENT + 3 * U, ALIGNMENT + 31 * U - 1, UidName([4]))

  /** The step reuses no name under reservation, and the disk tool does as it is told. */
  ghost predicate Fair(b: CR.Books, b': CR.Books, step: CR.Step) {
    (step.Schedule? ==> R.ReuseSafe(b.manager, step.step)) && CR.Obedient(SITE, b, b', step)
  }

  ghost predicate AllFair(run: seq<CR.Books>, steps: seq<CR.Step>)
    requires |run| == |steps| + 1
  {
    forall i :: 0 <= i < |steps| ==> Fair(run[i], run[i + 1], steps[i])
  }

  /** A fair run that ends in `b`. */
  ghost predicate Ends(run: seq<CR.Books>, steps: seq<CR.Step>, b: CR.Books) {
    CR.IsRun(SITE, run, steps) && AllFair(run, steps) && Last(run) == b
  }

  lemma Extended(run: seq<CR.Books>, steps: seq<CR.Step>, b: CR.Books, b': CR.Books, step: CR.Step) returns (run': seq<CR.Books>, steps': seq<CR.Step>)
    requires Ends(run, steps, b) && CR.Next(SITE, b, b', step) && Fair(b, b', step)
    ensures Ends(run', steps', b')
  {
    run', steps' := run + [b'], steps + [step];
    forall i | 0 <= i < |steps'|
      ensures CR.Next(SITE, run'[i], run'[i + 1], steps'[i]) && Fair(run'[i], run'[i + 1], steps'[i])
    {
      if i < |steps| {
        assert CR.Next(SITE, run[i], run[i + 1], steps[i]) && Fair(run[i], run[i + 1], steps[i]);
      }
    }
  }

  // ---------------------------------------------------------------- filling the disk

  lemma {:induction false} UsedAtMost(ps: seq<R.Partition>, serial: GoString)
    requires serial != [7] && forall p :: p in ps ==> p.placement == Some(R.PlacementOn(DEVICE))
    ensures R.Used(ps, serial) == 0
  {
    if ps != [] {
      assert ps[0] in ps;
      UsedAtMost(ps[1..], serial);
    }
  }

  lemma AllUnitsUsed()
    ensures R.Used([P1, P2, P3, P4], [7]) == 31 * U && R.Used([P2, P4], [7]) == 29 * U
  {
    WholeUnits(1);
    WholeUnits(28);
    assert [P1, P2, P3, P4][1..] == [P2, P3, P4] && [P2, P3, P4][1..] == [P3, P4] && [P3, P4][1..] == [P4] && [P4][1..] == [];
    assert [P2, P4][1..] == [P4];
    assert R.Used([P4], [7]) == 28 * U;
    assert R.Used([P3, P4], [7]) == 29 * U && R.Used([P2, P3, P4], [7]) == 30 * U;
  }

  lemma Begun() returns (run: seq<CR.Books>, steps: seq<CR.Step>)
    ensures Ends(run, steps, CR.Books(Manager([P1, P2, P3, P4]), []))
  {
    run, steps := [CR.Books(Manager([P1, P2, P3, P4]), [])], [];
    var s := run[0].manager;
    WholeUnits(1);
    WholeUnits(28);
    AllUnitsUsed();
    forall serial
      ensures R.Used(s.partitions, serial) <= R.Total(s, serial)
    {
      if serial != [7] {
        UsedAtMost(s.partitions, serial);
      }
    }
  }

  /** One more volume at the end of a tidy table. */
  lemma Appended(run: seq<CR.Books>, steps: seq<CR.Step>, m: R.State, t: seq<Part>, k: nat, units: int, p: Part)
    returns (run': seq<CR.Books>, steps': seq<CR.Step>)
    requires Ends(run, steps, CR.Books(m, t)) && Tidy(t) && 0 < units <= 31
    requires k < |m.partitions| && m.partitions[k].size == units * U && SB.PlacedHere(SITE.store, m.partitions[k])
    requires !HasName(t, UidName(m.partitions[k].uid))
    requires p == Part(|t| + 1, ALIGNMENT + Carved(t), ALIGNMENT + Carved(t) + units * U - 1, UidName(m.partitions[k].uid)) && p.last <= HI
    ensures Ends(run', steps', CR.Books(m, t + [p])) && Tidy(t + [p]) && Carved(t + [p]) == Carved(t) + units * U
  {
    WholeUnits(units);
    assert p == NextRow(t, p.name, units * U);
    AppendCreates(t, p.name, units * U);
    run', steps' := Extended(run, steps, CR.Books(m, t), CR.Books(m, t + [p]), CR.Carve(k, Some(IdentityOf("/dev/x", p))));
  }

  lemma NoName(t: seq<Part>, uid: GoString)
    requires forall i :: 0 <= i < |t| ==> exists u: GoString :: t[i].name == UidName(u) && u != uid
    ensures !HasName(t, UidName(uid))
  {
    UidNamesDiffer(SITE.store);
    forall p | p in t
      ensures p.name != UidName(uid)
    {
      var i :| 0 <= i < |t| && t[i] == p;
      var u: GoString :| t[i].name == UidName(u) && u != uid;
      assert SITE.store.nameOf(u) != SITE.store.nameOf(uid);
    }
  }

  lemma One() returns (run: seq<CR.Books>, steps: seq<CR.Step>)
    ensures Ends(run, steps, CR.Books(Manager([P1, P2, P3, P4]), [A])) && Tidy([A]) && Carved([A]) == U
  {
    run, steps := Begun();
    run, steps := Appended(run, steps, Manager([P1, P2, P3, P4]), [], 0, 1, A);
    assert [] + [A] == [A];
  }

  lemma Two() returns (run: seq<CR.Books>, steps: seq<CR.Step>)
    ensures Ends(run, steps, CR.Books(Manager([P1, P2, P3, P4]), [A, B])) && Tidy([A, B]) && Carved([A, B]) == 2 * U
  {
    run, steps := One();
    NoName([A], [2]);
    run, steps := Appended(run, steps, Manager([P1, P2, P3, P4]), [A], 1, 1, B);
    assert [A] + [B] == [A, B];
  }

  lemma Three() returns (run: seq<CR.Books>, steps: seq<CR.Step>)
    ensures Ends(run, steps, CR.Books(Manager([P1, P2, P3, P4]), [A, B, C])) && Tidy([A, B, C]) && Carved([A, B, C]) == 3 * U
  {
    run, steps := Two();
    NoName([A, B], [3]);
    run, steps := Appended(run, steps, Manager([P1, P2, P3, P4]), [A, B], 2, 1, C);
    assert [A, B] + [C] == [A, B, C];
  }

  lemma Filled() returns (run: seq<CR.Books>, steps: seq<CR.Step>)
    ensures Ends(run, steps, CR.Books(Manager([P1, P2, P3, P4]), [A, B, C, D]))
  {
    run, steps := Three();
    NoName([A, B, C], [4]);
    run, steps := Appended(run, steps, Manager([P1, P2, P3, P4]), [A, B, C], 3, 28, D);
    assert [A, B, C] + [D] == [A, B, C, D];
  }

  // ---------------------------------------------------------------- the first and the third go

  /** A volume is deleted, and then its object. */
  lemma Erased(run: seq<CR.Books>, steps: seq<CR.Step>, m: R.State, t: seq<Part>, k: nat, i: nat, ps: seq<R.Partition>, t': seq<Part>)
    returns (run': seq<CR.Books>, steps': seq<CR.Step>)
    requires Ends(run, steps, CR.Books(m, t)) && k < |m.partitions| && i < |t| && t[i].name == UidName(m.partitions[k].uid)
    requires t' == t[..i] + t[i + 1..] && ps == m.partitions[..k] + m.partitions[k + 1..] && !HasName(t', t[i].name)
    ensures Ends(run', steps', CR.Books(m.(partitions := ps), t'))
  {
    assert Deletes("/dev/x", t, t', t[i].name, None, true);
    run', steps' := Extended(run, steps, CR.Books(m, t), CR.Books(m, t'), CR.Erase(k, None, true));
    assert R.WorldNext(m, m.(partitions := ps), R.Remove(k));
    run', steps' := Extended(run', steps', CR.Books(m, t'), CR.Books(m.(partitions := ps), t'), CR.Schedule(R.Remove(k)));
  }

  lemma WithoutFirst<T>(a: T, b: T, c: T, d: T)
    ensures [b, c, d] == [a, b, c, d][..0] + [a, b, c, d][0 + 1..]
  {
  }

  lemma WithoutSecond<T>(a: T, b: T, c: T)
    ensures [a, c] == [a, b, c][..1] + [a, b, c][1 + 1..]
  {
  }

  lemma NamesGone()
    ensures !HasName([B, C, D], UidName([1])) && !HasName([B, D], UidName([3])) && !HasName([B, D], UidName([5]))
  {
    NoName([B, C, D], [1]);
    NoName([B, D], [3]);
    NoName([B, D], [5]);
  }

  lemma FirstGone() returns (run: seq<CR.Books>, steps: seq<CR.Step>)
    ensures Ends(run, steps, CR.Books(Manager([P2, P3, P4]), [B, C, D]))
  {
    run, steps := Filled();
    WithoutFirst(A, B, C, D);
    WithoutFirst(P1, P2, P3, P4);
    NamesGone();
    run, steps := Erased(run, steps, Manager([P1, P2, P3, P4]), [A, B, C, D], 0, 0, [P2, P3, P4], [B, C, D]);
  }

  lemma ThirdGone() returns (run: seq<CR.Books>, steps: seq<CR.Step>)
    ensures Ends(run, steps, CR.Books(Manager([P2, P4]), [B, D]))
  {
    run, steps := FirstGone();
    WithoutSecond(B, C, D);
    WithoutSecond(P2, P3, P4);
    NamesGone();
    run, steps := Erased(run, steps, Manager([P2, P3, P4]), [B, C, D], 1, 1, [P2, P4], [B, D]);
  }

  // ---------------------------------------------------------------- a reservation of two units

  const WISH := R.Partition("e", [5], 2 * U, 0, 1, false, None, None, None)

  lemma {:induction false} Scheduled(run: seq<CR.Books>, steps: seq<CR.Step>, t: seq<Part>, path: seq<R.State>, rsteps: seq<R.Step>)
    returns (run': seq<CR.Books>, steps': seq<CR.Step>)
    requires RP.IsPath(path, rsteps) && Ends(run, steps, CR.Books(path[0], t))
    requires forall i :: 0 <= i < |rsteps| ==> !rsteps[i].Remove? && !rsteps[i].Create?
    ensures Ends(run', steps', CR.Books(Last(path), t))
    decreases |rsteps|
  {
    run', steps' := run, steps;
    if rsteps != [] {
      assert R.Next(path[0], path[0 + 1], rsteps[0]);
      run', steps' := Extended(run, steps, CR.Books(path[0], t), CR.Books(path[1], t), CR.Schedule(rsteps[0]));
      forall i | 0 <= i < |rsteps[1..]|
        ensures R.Next(path[1..][i], path[1..][i + 1], rsteps[1..][i])
      {
        assert R.Next(path[i + 1], path[(i + 1) + 1], rsteps[i + 1]);
      }
      run', steps' := Scheduled(run', steps', t, path[1..], rsteps[1..]);
    }
  }

  /** The scheduler's state with the wish in it. */
  function Wishing(): R.State {
    Manager([P2, P4]).(partitions := [P2, P4, WISH.(version := 1)], clock := 2, uids := {[1], [2], [3], [4], [5]})
  }

  /** A partition of two units is created. */
  lemma Wished() returns (run: seq<CR.Books>, steps: seq<CR.Step>)
    ensures Ends(run, steps, CR.Books(Wishing(), [B, D]))
  {
    run, steps := ThirdGone();
    var m := Manager([P2, P4]);
    WholeUnits(2);
    assert [P2, P4] + [WISH.(version := 1)] == [P2, P4, WISH.(version := 1)];
    assert R.WorldNext(m, Wishing(), R.Create(WISH));
    run, steps := Extended(run, steps, CR.Books(m, [B, D]), CR.Books(Wishing(), [B, D]), CR.Schedule(R.Create(WISH)));
  }

  lemma WishFits(run: seq<CR.Books>, steps: seq<CR.Step>)
    requires Ends(run, steps, CR.Books(Wishing(), [B, D]))
    ensures RP.Reservable(Wishing(), 0, 2, "x")
  {
    WholeUnits(2);
    AllUnitsUsed();
    R.UsedConcat([P2, P4], [WISH.(version := 1)], [7]);
    assert [P2, P4] + [WISH.(version := 1)] == [P2, P4, WISH.(version := 1)];
    assert [WISH.(version := 1)][1..] == [];
    CR.RunRefines(SITE, run, steps);
    SB.RunKeepsBasic(SITE.store, CR.AbsRun(run), CR.AbsSteps(run, steps), |run| - 1);
  }

  /** What the scheduler makes of it. */
  function Granting(): R.State {
    Wishing().(partitions := [P2, P4, RP.Reserved(Wishing(), 2, "x")], clock := 4)
  }

  lemma WishGranted()
    ensures var p := Granting().partitions[2]; p.uid == [5] && p.size == 2 * U && SB.PlacedHere(SITE.store, p)
    ensures [P2, P4, WISH.(version := 1)][2 := Granting().partitions[2]] == Granting().partitions
  {
    RP.ReservedIsAuthorized(Wishing(), 2, "x");
  }

  /** The scheduler admits and assigns it. */
  lemma Granted() returns (run: seq<CR.Books>, steps: seq<CR.Step>)
    ensures Ends(run, steps, CR.Books(Granting(), [B, D]))
  {
    run, steps := Wished();
    WishFits(run, steps);
    WishGranted();
    var path, rsteps := RP.ReservationCanSucceed(Wishing(), 0, 2, "x");
    run, steps := Scheduled(run, steps, [B, D], path, rsteps);
  }

  lemma Fragmented()
    ensures Carved([B, D]) == 29 * U && FirstFit(Gaps([B, D], LO, HI), 2 * U).None?
  {
    assert [B, D][1..] == [D] && [D][1..] == [];
    assert Carved([D]) == 28 * U;
    var head, hole, tail := Extent(LO, B.first - 1), Extent(B.last + 1, D.first - 1), Extent(D.last + 1, HI);
    assert Gaps([], D.last + 1, HI) == [tail];
    assert Gaps([D], B.last + 1, HI) == [hole, tail];
    assert Gaps([B, D], LO, HI) == [head, hole, tail];
    assert !Holds(head, 2 * U) && !Holds(hole, 2 * U) && !Holds(tail, 2 * U);
    FirstFitWithin([head, hole, tail], 2 * U);
  }

  /** Partition `k` is assigned to the disk and not carved yet, and no place is left for it. */
  ghost predicate Defeated(b: CR.Books, k: nat) {
    && k < |b.manager.partitions| && SB.PlacedHere(SITE.store, b.manager.partitions[k])
    && !HasName(b.table, SITE.store.nameOf(b.manager.partitions[k].uid))
    && FirstFit(Gaps(b.table, SITE.lo, SITE.hi), Capacity.Rounded(b.manager.partitions[k].size)).None?
  }

  lemma NoPlaceLeft(b: CR.Books)
    requires b == CR.Books(Granting(), [B, D])
    ensures Defeated(b, 2) && R.Total(b.manager, [7]) == Capacity.Advertised(RAW)
  {
    WishGranted();
    WholeUnits(2);
    NamesGone();
    Fragmented();
  }

  /** A run of the scheduler and the disk ends with a reservation, made within the advertised capacity
      of 128 MiB, that is defeated. */
  lemma DeletionsCanDefeatReservation() returns (run: seq<CR.Books>, steps: seq<CR.Step>, b: CR.Books)
    ensures Ends(run, steps, b)
    ensures Defeated(b, 2) && R.Total(b.manager, [7]) == Capacity.Advertised(RAW)
  {
    run, steps := Granted();
    b := CR.Books(Granting(), [B, D]);
    NoPlaceLeft(b);
  }
}
