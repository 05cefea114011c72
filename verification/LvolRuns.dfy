/**
 The scheduler and the logical volumes of one store together, over whole runs.

 The scheduler machine takes its steps; in between, agents create and delete logical volumes for
 objects of the machine, through calls that may fail after taking effect, and SPDK's list of bdevs
 changes elsewhere.  A volume belongs to the store if it has a label `store/name`; a new one has one
 such label.  Every run is a run of the books machine, so its account is theirs.
 */
module LvolRuns {
  import opened Options
  import opened SpdkLvol
  import R = Reservation
  import SB = StoreBooks
  import Capacity

  /** The stores SPDK has, the one on the device, and how the books know the device. */
  datatype Site = Site(stores: seq<Store>, device: string, home: nat, books: SB.Site)

  datatype Books = Books(manager: R.State, bdevs: seq<Bdev>)

  datatype Step =
    | Schedule(step: R.Step)
    | Carve(k: nat, result: Option<VolumeIdentity>)
    | Erase(k: nat, identity: VolumeIdentity, ok: bool)
    | Elsewhere

  // ---------------------------------------------------------------- volumes of a store

  function Labels(b: Bdev): seq<string> {
    [b.name] + b.aliases
  }

  predicate IsIn(text: string, store: Store) {
    |store.name| < |text| && text[..|store.name| + 1] == store.name + "/"
  }

  /** The volume name in the first label that lies in the store. */
  function FirstIn(labels: seq<string>, store: Store): Option<string> {
    if labels == [] then None
    else if IsIn(labels[0], store) then Some(labels[0][|store.name| + 1..])
    else FirstIn(labels[1..], store)
  }

  function Volumes(bdevs: seq<Bdev>, store: Store): seq<SB.Volume> {
    if bdevs == [] then [] else VolumeOf(bdevs[0], store) + Volumes(bdevs[1..], store)
  }

  function VolumeOf(b: Bdev, store: Store): seq<SB.Volume> {
    match FirstIn(Labels(b), store)
    case None => []
    case Some(v) => [SB.Volume(v, Size(b))]
  }

  /** No second label of the bdev lies in the store. */
  ghost predicate LabelledOnce(b: Bdev, store: Store, volume: string) {
    forall text :: text in Labels(b) && IsIn(text, store) ==> text == Alias(store, volume)
  }

  lemma AliasIsIn(store: Store, volume: string)
    ensures IsIn(Alias(store, volume), store) && Alias(store, volume)[|store.name| + 1..] == volume
  {
    assert Alias(store, volume) == (store.name + "/") + volume;
  }

  /** A volume found in the store carries the alias made of store and volume name. */
  lemma {:induction false} FirstInIsAlias(labels: seq<string>, store: Store)
    requires FirstIn(labels, store).Some?
    ensures Alias(store, FirstIn(labels, store).value) in labels
  {
    if IsIn(labels[0], store) {
      assert labels[0] == labels[0][..|store.name| + 1] + labels[0][|store.name| + 1..];
      assert labels[0] == Alias(store, labels[0][|store.name| + 1..]);
    } else {
      FirstInIsAlias(labels[1..], store);
    }
  }

  lemma {:induction false} FirstInFinds(labels: seq<string>, store: Store, volume: string)
    requires Alias(store, volume) in labels
    requires forall text :: text in labels && IsIn(text, store) ==> text == Alias(store, volume)
    ensures FirstIn(labels, store) == Some(volume)
  {
    AliasIsIn(store, volume);
    if IsIn(labels[0], store) {
      assert labels[0] == Alias(store, volume);
    } else {
      FirstInFinds(labels[1..], store, volume);
    }
  }

  lemma Associates(a: seq<SB.Volume>, b: seq<SB.Volume>, c: seq<SB.Volume>)
    ensures a + (b + c) == (a + b) + c
  {
  }

  lemma {:induction false} VolumesConcat(a: seq<Bdev>, b: seq<Bdev>, store: Store)
    ensures Volumes(a + b, store) == Volumes(a, store) + Volumes(b, store)
  {
    if a == [] {
      assert a + b == b;
    } else {
      var first := VolumeOf(a[0], store);
      calc {
        Volumes(a + b, store);
        { assert (a + b)[0] == a[0] && (a + b)[1..] == a[1..] + b; }
        first + Volumes(a[1..] + b, store);
        { VolumesConcat(a[1..], b, store); }
        first + (Volumes(a[1..], store) + Volumes(b, store));
        { Associates(first, Volumes(a[1..], store), Volumes(b, store)); }
        (first + Volumes(a[1..], store)) + Volumes(b, store);
      }
    }
  }

  /** What no alias selects is no volume of the store. */
  lemma {:induction false} UnselectedIsAbsent(bdevs: seq<Bdev>, store: Store, volume: string)
    requires SelectsNone(bdevs, ByAlias(Alias(store, volume)))
    ensures !SB.HasVolume(Volumes(bdevs, store), volume)
  {
    if bdevs != [] {
      forall j | 0 <= j < |bdevs[1..]|
        ensures !Selects(ByAlias(Alias(store, volume)), bdevs[1..][j])
      {
        assert bdevs[1..][j] == bdevs[j + 1];
      }
      UnselectedIsAbsent(bdevs[1..], store, volume);
      assert !Selects(ByAlias(Alias(store, volume)), bdevs[0]);
      if FirstIn(Labels(bdevs[0]), store).Some? {
        FirstInIsAlias(Labels(bdevs[0]), store);
      }
    }
  }

  // ---------------------------------------------------------------- steps

  function Home(site: Site): Store
    requires site.home < |site.stores|
  {
    site.stores[site.home]
  }

  ghost predicate ValidSite(site: Site) {
    OnlyStoreOn(site.stores, site.device, site.home) && SB.Injective(site.books)
  }

  function NameOf(site: Site, b: Books, k: nat): string
    requires k < |b.manager.partitions|
  {
    site.books.nameOf(b.manager.partitions[k].uid)
  }

  ghost predicate Next(site: Site, b: Books, b': Books, step: Step)
    requires site.home < |site.stores|
  {
    match step
    case Schedule(st) =>
      && R.Next(b.manager, b'.manager, st) && b'.bdevs == b.bdevs
      && (st.Remove? && st.k < |b.manager.partitions| ==> SelectsNone(b.bdevs, ByAlias(Alias(Home(site), NameOf(site, b, st.k)))))
    case Carve(k, r) =>
      && k < |b.manager.partitions| && SB.PlacedHere(site.books, b.manager.partitions[k]) && b'.manager == b.manager
      && Creates(site.stores, site.device, b.bdevs, b'.bdevs, NameOf(site, b, k), b.manager.partitions[k].size, r)
      && (b'.bdevs != b.bdevs && b'.bdevs != [] ==> LabelledOnce(b'.bdevs[|b'.bdevs| - 1], Home(site), NameOf(site, b, k)))
    case Erase(k, identity, ok) =>
      && k < |b.manager.partitions| && b'.manager == b.manager
      && Deletes(site.stores, b.bdevs, b'.bdevs, NameOf(site, b, k), identity, ok)
    case Elsewhere =>
      b'.manager == b.manager && Registered(b'.bdevs) && Volumes(b'.bdevs, Home(site)) == Volumes(b.bdevs, Home(site))
  }

  /** A new store, and whatever the scheduler starts from. */
  ghost predicate IsRun(site: Site, run: seq<Books>, steps: seq<Step>)
    requires site.home < |site.stores|
  {
    && |run| == |steps| + 1
    && R.Init(run[0].manager) && Registered(run[0].bdevs) && Volumes(run[0].bdevs, Home(site)) == []
    && forall i :: 0 <= i < |steps| ==> Next(site, run[i], run[i + 1], steps[i])
  }

  // ---------------------------------------------------------------- refinement

  function Abs(site: Site, b: Books): SB.Books
    requires site.home < |site.stores|
  {
    SB.Books(b.manager, Volumes(b.bdevs, Home(site)))
  }

  function AbsStep(site: Site, b: Books, b': Books, step: Step): SB.Step
    requires site.home < |site.stores|
  {
    match step
    case Schedule(st) => SB.Schedule(st)
    case Carve(k, _) => if b'.bdevs == b.bdevs || b'.bdevs == [] then SB.Idle else SB.Add(k, Size(b'.bdevs[|b'.bdevs| - 1]))
    case Erase(_, _, _) => if Volumes(b'.bdevs, Home(site)) == Volumes(b.bdevs, Home(site)) then SB.Idle else SB.Drop
    case Elsewhere => SB.Idle
  }

  lemma OnlyHome(site: Site, store: Store)
    requires OnlyStoreOn(site.stores, site.device, site.home) && store in site.stores && store.baseBdev == site.device
    ensures store == Home(site)
  {
    var i :| 0 <= i < |site.stores| && site.stores[i] == store;
  }

  /** The bdev a create added. */
  lemma AddedBdev(site: Site, b: Books, b': Books, k: nat, r: Option<VolumeIdentity>) returns (n: Bdev)
    requires ValidSite(site) && Next(site, b, b', Carve(k, r)) && b'.bdevs != b.bdevs
    ensures b'.bdevs == b.bdevs + [n] && Alias(Home(site), NameOf(site, b, k)) in n.aliases && LabelledOnce(n, Home(site), NameOf(site, b, k))
    ensures SelectsNone(b.bdevs, ByAlias(Alias(Home(site), NameOf(site, b, k))))
  {
    var volume := NameOf(site, b, k);
    var store :| store in site.stores && store.baseBdev == site.device
      && SelectsNone(b.bdevs, ByAlias(Alias(store, volume))) && Appended(b.bdevs, b'.bdevs, Alias(store, volume));
    OnlyHome(site, store);
    n := b'.bdevs[|b.bdevs|];
    assert b'.bdevs == b'.bdevs[..|b.bdevs|] + [n];
  }

  lemma CarveRefines(site: Site, b: Books, b': Books, k: nat, r: Option<VolumeIdentity>)
    requires ValidSite(site) && Next(site, b, b', Carve(k, r)) && b'.bdevs != b.bdevs
    ensures SB.Next(site.books, Abs(site, b), Abs(site, b'), AbsStep(site, b, b', Carve(k, r)))
  {
    var n := AddedBdev(site, b, b', k, r);
    var volume, store := NameOf(site, b, k), Home(site);
    FirstInFinds(Labels(n), store, volume);
    VolumesConcat(b.bdevs, [n], store);
    UnselectedIsAbsent(b.bdevs, store, volume);
    var vs, v := Volumes(b.bdevs, store), SB.Volume(volume, Size(n));
    assert Volumes([n], store) == [v] + Volumes([], store);
    assert Volumes(b'.bdevs, store) == vs[..|vs|] + [v] + vs[|vs|..];
    assert SB.Inserted(vs, Volumes(b'.bdevs, store), v);
  }

  lemma VolumesWithout(bdevs: seq<Bdev>, i: nat, store: Store)
    requires i < |bdevs|
    ensures Volumes(Without(bdevs, i), store) == Volumes(bdevs, store) || SB.Dropped(Volumes(bdevs, store), Volumes(Without(bdevs, i), store))
  {
    var front, back := bdevs[..i], bdevs[i + 1..];
    assert bdevs == front + [bdevs[i]] + back;
    VolumesConcat(front + [bdevs[i]], back, store);
    VolumesConcat(front, [bdevs[i]], store);
    VolumesConcat(front, back, store);
    var vs, own, k := Volumes(bdevs, store), VolumeOf(bdevs[i], store), |Volumes(front, store)|;
    assert Volumes([bdevs[i]], store) == own + Volumes([], store) == own;
    assert vs == Volumes(front, store) + own + Volumes(back, store);
    if own != [] {
      assert Volumes(Without(bdevs, i), store) == vs[..k] + vs[k + 1..];
    }
  }

  lemma EraseRefines(site: Site, b: Books, b': Books, k: nat, identity: VolumeIdentity, ok: bool)
    requires site.home < |site.stores| && Next(site, b, b', Erase(k, identity, ok))
    ensures SB.Next(site.books, Abs(site, b), Abs(site, b'), AbsStep(site, b, b', Erase(k, identity, ok)))
  {
    if b'.bdevs != b.bdevs {
      var i: nat :| i < |b.bdevs| && b'.bdevs == Without(b.bdevs, i);
      VolumesWithout(b.bdevs, i, Home(site));
    }
  }

  lemma StepRefines(site: Site, b: Books, b': Books, step: Step)
    requires ValidSite(site) && Next(site, b, b', step)
    ensures SB.Next(site.books, Abs(site, b), Abs(site, b'), AbsStep(site, b, b', step))
  {
    match step
    case Schedule(st) =>
      if st.Remove? && st.k < |b.manager.partitions| {
        UnselectedIsAbsent(b.bdevs, Home(site), NameOf(site, b, st.k));
      }
    case Carve(k, r) =>
      if b'.bdevs != b.bdevs {
        CarveRefines(site, b, b', k, r);
      }
    case Erase(k, identity, ok) => EraseRefines(site, b, b', k, identity, ok);
    case Elsewhere =>
  }

  function AbsRun(site: Site, run: seq<Books>): (r: seq<SB.Books>)
    requires site.home < |site.stores|
    ensures |r| == |run| && forall i :: 0 <= i < |run| ==> r[i] == Abs(site, run[i])
  {
    seq(|run|, i requires 0 <= i < |run| => Abs(site, run[i]))
  }

  function AbsSteps(site: Site, run: seq<Books>, steps: seq<Step>): (r: seq<SB.Step>)
    requires site.home < |site.stores| && |run| == |steps| + 1
    ensures |r| == |steps| && forall i :: 0 <= i < |steps| ==> r[i] == AbsStep(site, run[i], run[i + 1], steps[i])
  {
    seq(|steps|, i requires 0 <= i < |steps| => AbsStep(site, run[i], run[i + 1], steps[i]))
  }

  /** Every run on the store is a run of the books. */
  lemma RunRefines(site: Site, run: seq<Books>, steps: seq<Step>)
    requires ValidSite(site) && IsRun(site, run, steps)
    ensures SB.IsRun(site.books, AbsRun(site, run), AbsSteps(site, run, steps))
  {
    forall i | 0 <= i < |steps|
      ensures SB.Next(site.books, AbsRun(site, run)[i], AbsRun(site, run)[i + 1], AbsSteps(site, run, steps)[i])
    {
      StepRefines(site, run[i], run[i + 1], steps[i]);
    }
  }

  // ---------------------------------------------------------------- the account

  /** Every volume of the store belongs to one assigned object and has its rounded size. */
  ghost predicate Accounted(site: Site, b: Books)
    requires site.home < |site.stores|
  {
    SB.Accounted(site.books, Abs(site, b))
  }

  /** A volume that appears has the size that was asked for. */
  predicate RightSize(b: Books, b': Books, step: Step) {
    step.Carve? && b'.bdevs != b.bdevs && b'.bdevs != [] && step.k < |b.manager.partitions| ==>
      Size(b'.bdevs[|b'.bdevs| - 1]) == Capacity.Rounded(b.manager.partitions[step.k].size)
  }

  ghost predicate AllAccounted(site: Site, run: seq<Books>)
    requires site.home < |site.stores|
  {
    forall i :: 0 <= i < |run| ==> Accounted(site, run[i])
  }

  predicate AllRight(run: seq<Books>, steps: seq<Step>)
    requires |run| == |steps| + 1
  {
    forall i :: 0 <= i < |steps| ==> RightSize(run[i], run[i + 1], steps[i])
  }

  lemma RefinedAccountIff(site: Site, run: seq<Books>)
    requires site.home < |site.stores|
    ensures AllAccounted(site, run) <==> forall i :: 0 <= i < |run| ==> SB.AccountedAt(site.books, AbsRun(site, run))[i]
  {
    var held := SB.AccountedAt(site.books, AbsRun(site, run));
    assert forall i :: 0 <= i < |run| ==> held[i] == Accounted(site, run[i]);
  }

  lemma RefinedSizesIff(site: Site, run: seq<Books>, steps: seq<Step>)
    requires site.home < |site.stores| && |run| == |steps| + 1
    ensures AllRight(run, steps) <==> forall i :: 0 <= i < |steps| ==> SB.RightAt(AbsRun(site, run), AbsSteps(site, run, steps))[i]
  {
    var right := SB.RightAt(AbsRun(site, run), AbsSteps(site, run, steps));
    assert forall i :: 0 <= i < |steps| ==> right[i] == RightSize(run[i], run[i + 1], steps[i]);
  }

  /** Over a whole run every volume of the store is accounted for exactly when every volume that a
      create adds, failed calls included, has the size that was asked for. */
  lemma AccountedRunIff(site: Site, run: seq<Books>, steps: seq<Step>)
    requires ValidSite(site) && IsRun(site, run, steps)
    ensures AllAccounted(site, run) <==> AllRight(run, steps)
  {
    RunRefines(site, run, steps);
    SB.AccountedRunIff(site.books, AbsRun(site, run), AbsSteps(site, run, steps));
    RefinedAccountIff(site, run);
    RefinedSizesIff(site, run, steps);
  }

  /** A reported success has read the size back, so only failed calls can break the account. */
  lemma SuccessHasRightSize(site: Site, b: Books, b': Books, k: nat, id: VolumeIdentity)
    requires ValidSite(site) && Next(site, b, b', Carve(k, Some(id)))
    ensures RightSize(b, b', Carve(k, Some(id)))
  {
    if b'.bdevs != b.bdevs {
      var n := AddedBdev(site, b, b', k, Some(id));
      var volume, bytes := NameOf(site, b, k), Capacity.Rounded(b.manager.partitions[k].size);
      var store, i :| store in site.stores && store.baseBdev == site.device && Pins(b'.bdevs, i, store, volume, bytes, id);
      OnlyHome(site, store);
      IdentifierIsExact(b'.bdevs, |b.bdevs|, ByAlias(Alias(store, volume)));
      assert i == |b.bdevs|;
    }
  }

  /** In every state of every run in which added volumes have the right size, the bytes of the store's
      volumes equal the scheduler's account of their partitions, whatever names were reused. */
  lemma BooksBalance(site: Site, run: seq<Books>, steps: seq<Step>, i: nat)
    requires ValidSite(site) && IsRun(site, run, steps) && i < |run| && AllRight(run, steps)
    ensures var ps, vs := run[i].manager.partitions, Volumes(run[i].bdevs, Home(site));
            SB.Amount(vs) == SB.UsedBy(ps, SB.NamesFor(site.books, ps), site.books.serial, SB.NamesOf(vs))
  {
    RunRefines(site, run, steps);
    RefinedSizesIff(site, run, steps);
    SB.BooksBalance(site.books, AbsRun(site, run), AbsSteps(site, run, steps), i);
  }

  ghost predicate AllReuseSafe(run: seq<Books>, steps: seq<Step>)
    requires |run| == |steps| + 1
  {
    forall j :: 0 <= j < |steps| && steps[j].Schedule? ==> R.ReuseSafe(run[j].manager, steps[j].step)
  }

  /** And if no name under reservation is reused for a larger partition, they never exceed the device
      total, and leave room for each assigned partition that has no volume yet. */
  lemma BooksFit(site: Site, run: seq<Books>, steps: seq<Step>, i: nat, k: nat)
    requires ValidSite(site) && IsRun(site, run, steps) && i < |run| && AllRight(run, steps) && AllReuseSafe(run, steps)
    ensures var ps, vs, total := run[i].manager.partitions, Volumes(run[i].bdevs, Home(site)), R.Total(run[i].manager, site.books.serial);
            && SB.Amount(vs) <= total
            && (k < |ps| && SB.PlacedHere(site.books, ps[k]) && SelectsNone(run[i].bdevs, ByAlias(Alias(Home(site), NameOf(site, run[i], k)))) ==>
                  SB.Amount(vs) + Capacity.Rounded(ps[k].size) <= total)
  {
    RunRefines(site, run, steps);
    RefinedSizesIff(site, run, steps);
    forall j | 0 <= j < |steps| && AbsSteps(site, run, steps)[j].Schedule?
      ensures R.ReuseSafe(AbsRun(site, run)[j].manager, AbsSteps(site, run, steps)[j].step)
    {
      assert steps[j].Schedule? && R.ReuseSafe(run[j].manager, steps[j].step);
    }
    SB.BooksFit(site.books, AbsRun(site, run), AbsSteps(site, run, steps), i, k);
    if k < |run[i].manager.partitions| && SelectsNone(run[i].bdevs, ByAlias(Alias(Home(site), NameOf(site, run[i], k)))) {
      UnselectedIsAbsent(run[i].bdevs, Home(site), NameOf(site, run[i], k));
    }
  }

  // ---------------------------------------------------------------- a volume of another size

  /** A create that fails because SPDK made a volume of its own size leaves bytes that no account
      explains: here one block for an object of one unit or more. */
  lemma OddVolumeBreaksAccount(site: Site, s: R.State) returns (run: seq<Books>, steps: seq<Step>)
    requires ValidSite(site) && R.Init(s) && |s.partitions| > 0 && SB.PlacedHere(site.books, s.partitions[0])
    ensures IsRun(site, run, steps) && |run| == 2 && SB.Amount(Volumes(run[1].bdevs, Home(site))) == 512 && !Accounted(site, run[1])
  {
    var volume, store := site.books.nameOf(s.partitions[0].uid), Home(site);
    assert s.partitions[0] in s.partitions;
    var odd := Bdev(Alias(store, volume), "", [Alias(store, volume)], 512, 1, None);
    assert Size(odd) == 512;
    assert Registered([odd]);
    assert Appended([], [odd], Alias(store, volume)) && store in site.stores;
    assert NewlyAdded(site.stores, site.device, [], [odd], volume);
    run, steps := [Books(s, []), Books(s, [odd])], [Carve(0, None)];
    assert Next(site, run[0], run[0 + 1], steps[0]);
    FirstInFinds(Labels(odd), store, volume);
    assert [odd][1..] == [];
    assert Volumes([odd], store) == [SB.Volume(volume, 512)];
    assert [SB.Volume(volume, 512)][1..] == [];
    Capacity.RoundedIsLeast(s.partitions[0].size);
    assert !RightSize(run[0], run[0 + 1], steps[0]);
    AccountedRunIff(site, run, steps);
    assert Accounted(site, run[0]);
  }
}
