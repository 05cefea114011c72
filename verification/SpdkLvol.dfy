/**
 SPDK logical volumes: creating one, recording its identity, and deleting exactly the
 volume that every recorded identifier agrees on.

 An RPC that reports failure may have taken effect.  When `reliable` is set nothing fails
 without a reason.
 */
module SpdkLvol {
  import opened Options
  import Capacity

  const MEBIBYTE: int := 1024 * 1024

  datatype Store = Store(uuid: string, name: string, baseBdev: string)

  /** `storeUuid` is None for a bdev without logical-volume details. */
  datatype Bdev = Bdev(name: string, uuid: string, aliases: seq<string>, blockSize: nat, numBlocks: nat, storeUuid: Option<string>)

  function Size(b: Bdev): int {
    b.blockSize * b.numBlocks
  }

  datatype VolumeIdentity = VolumeIdentity(
    backendVolumeId: string,
    capacityBytes: int,
    baseBdev: string,
    storeName: string,
    storeUuid: string,
    volumeName: string,
    volumeUuid: string)

  // ---------------------------------------------------------------- selectors

  datatype Selector =
    | ByUuid(uuid: string)
    | ByAlias(alias: string)
    | ByVolumeName(volume: string)
    | ByCreation(createdAlias: string, createdUuid: string)

  predicate HasSuffix(s: string, suffix: string) {
    |suffix| <= |s| && s[|s| - |suffix|..] == suffix
  }

  predicate Selects(sel: Selector, b: Bdev) {
    match sel
    case ByUuid(u) => b.name == u || b.uuid == u
    case ByAlias(a) => b.name == a || a in b.aliases
    case ByVolumeName(v) => b.name == v || exists a :: a in b.aliases && (a == v || HasSuffix(a, "/" + v))
    case ByCreation(a, u) => (u != "" && (b.name == u || b.uuid == u)) || b.name == a || a in b.aliases
  }

  /** The identifiers that were recorded; the bare volume name only when there are none. */
  function Selectors(volume: string, id: VolumeIdentity): seq<Selector> {
    var alias := id.storeName + "/" + id.volumeName;
    var recorded :=
      (if id.volumeUuid != "" then [ByUuid(id.volumeUuid)] else [])
      + (if id.backendVolumeId != "" then [ByAlias(id.backendVolumeId)] else [])
      + (if id.storeName != "" && id.volumeName != "" && alias != id.backendVolumeId then [ByAlias(alias)] else []);
    if recorded == [] && volume != "" then [ByVolumeName(volume)] else recorded
  }

  ghost predicate SelectsNone(bdevs: seq<Bdev>, sel: Selector) {
    forall j :: 0 <= j < |bdevs| ==> !Selects(sel, bdevs[j])
  }

  ghost predicate SelectsOnly(bdevs: seq<Bdev>, sel: Selector, i: nat) {
    i < |bdevs| && forall j :: 0 <= j < |bdevs| ==> (Selects(sel, bdevs[j]) <==> j == i)
  }

  /** Some identifier was recorded and none of them leads anywhere. */
  ghost predicate AllGone(bdevs: seq<Bdev>, sels: seq<Selector>) {
    sels != [] && forall k :: 0 <= k < |sels| ==> SelectsNone(bdevs, sels[k])
  }

  /** Some identifier was recorded and each of them leads to bdev `i` and nowhere else. */
  ghost predicate AllAgree(bdevs: seq<Bdev>, sels: seq<Selector>, i: nat) {
    i < |bdevs| && sels != [] && forall k :: 0 <= k < |sels| ==> SelectsOnly(bdevs, sels[k], i)
  }

  lemma OnlyIsUnique(bdevs: seq<Bdev>, sel: Selector, a: nat)
    requires SelectsOnly(bdevs, sel, a)
    ensures !SelectsNone(bdevs, sel)
    ensures forall i: nat :: SelectsOnly(bdevs, sel, i) <==> i == a
  {
    assert Selects(sel, bdevs[a]);
  }

  lemma NoneExcludesOnly(bdevs: seq<Bdev>, sel: Selector)
    requires SelectsNone(bdevs, sel)
    ensures forall i: nat :: !SelectsOnly(bdevs, sel, i)
  {
    forall i: nat
      ensures !SelectsOnly(bdevs, sel, i)
    {
      assert i < |bdevs| ==> !Selects(sel, bdevs[i]);
    }
  }

  lemma TwoExcludeOnly(bdevs: seq<Bdev>, sel: Selector, a: nat, b: nat)
    requires a < b < |bdevs| && Selects(sel, bdevs[a]) && Selects(sel, bdevs[b])
    ensures !SelectsNone(bdevs, sel) && forall i: nat :: !SelectsOnly(bdevs, sel, i)
  {
  }

  datatype Resolution = Gone | Candidate(index: nat) | Refused

  method MatchingBdevs(bdevs: seq<Bdev>, sel: Selector) returns (matches: seq<nat>)
    ensures forall k :: 0 <= k < |matches| ==> matches[k] < |bdevs| && Selects(sel, bdevs[matches[k]])
    ensures forall k, l :: 0 <= k < l < |matches| ==> matches[k] < matches[l]
    ensures |matches| == 0 <==> SelectsNone(bdevs, sel)
    ensures |matches| == 1 <==> exists i :: SelectsOnly(bdevs, sel, i)
    ensures |matches| == 1 ==> SelectsOnly(bdevs, sel, matches[0])
  {
    matches := [];
    for i := 0 to |bdevs|
      invariant forall k :: 0 <= k < |matches| ==> matches[k] < i && Selects(sel, bdevs[matches[k]])
      invariant forall k, l :: 0 <= k < l < |matches| ==> matches[k] < matches[l]
      invariant forall j :: 0 <= j < i && Selects(sel, bdevs[j]) ==> j in matches
    {
      if Selects(sel, bdevs[i]) {
        matches := matches + [i];
      }
    }
    if |matches| == 0 {
      NoneExcludesOnly(bdevs, sel);
    } else if |matches| > 1 {
      TwoExcludeOnly(bdevs, sel, matches[0], matches[1]);
    } else {
      assert SelectsOnly(bdevs, sel, matches[0]);
    }
  }

  /** An empty answer and a single volume exclude each other, and the volume is unique. */
  lemma ResolutionIsExclusive(bdevs: seq<Bdev>, sels: seq<Selector>, i: nat)
    requires AllAgree(bdevs, sels, i)
    ensures !AllGone(bdevs, sels)
    ensures forall j: nat :: AllAgree(bdevs, sels, j) ==> j == i
  {
    OnlyIsUnique(bdevs, sels[0], i);
  }

  /** The volume every selector agrees on, nothing when none finds any, and otherwise a refusal. */
  method ResolveLvolForDeletion(bdevs: seq<Bdev>, volume: string, id: VolumeIdentity) returns (r: Resolution)
    ensures r.Gone? <==> AllGone(bdevs, Selectors(volume, id))
    ensures forall i :: r == Candidate(i) <==> AllAgree(bdevs, Selectors(volume, id), i)
  {
    var sels := Selectors(volume, id);
    if sels == [] {
      return Refused;
    }
    var found: Option<nat> := None;
    var missing := false;
    for k := 0 to |sels|
      invariant forall j :: 0 <= j < k ==> SelectsNone(bdevs, sels[j]) || (found.Some? && SelectsOnly(bdevs, sels[j], found.value))
      invariant found.Some? ==> exists j :: 0 <= j < k && SelectsOnly(bdevs, sels[j], found.value)
      invariant missing <==> exists j :: 0 <= j < k && SelectsNone(bdevs, sels[j])
    {
      var matches := MatchingBdevs(bdevs, sels[k]);
      if |matches| > 1 {
        assert forall i :: !SelectsOnly(bdevs, sels[k], i);
        return Refused;
      }
      if |matches| == 0 {
        missing := true;
      } else {
        if found.Some? && found.value != matches[0] {
          DifferentVolumes(bdevs, sels, k, matches[0], found.value);
          return Refused;
        }
        found := Some(matches[0]);
      }
    }
    if found.None? {
      NoneExcludesOnly(bdevs, sels[0]);
      return Gone;
    }
    if missing {
      PartlyMissing(bdevs, sels, found.value);
      return Refused;
    }
    ResolutionIsExclusive(bdevs, sels, found.value);
    r := Candidate(found.value);
  }

  lemma DifferentVolumes(bdevs: seq<Bdev>, sels: seq<Selector>, k: nat, a: nat, b: nat)
    requires k < |sels| && a != b && SelectsOnly(bdevs, sels[k], a)
    requires exists j :: 0 <= j < |sels| && SelectsOnly(bdevs, sels[j], b)
    ensures !AllGone(bdevs, sels) && forall i: nat :: !AllAgree(bdevs, sels, i)
  {
    var j :| 0 <= j < |sels| && SelectsOnly(bdevs, sels[j], b);
    OnlyIsUnique(bdevs, sels[k], a);
    OnlyIsUnique(bdevs, sels[j], b);
  }

  lemma PartlyMissing(bdevs: seq<Bdev>, sels: seq<Selector>, a: nat)
    requires exists j :: 0 <= j < |sels| && SelectsOnly(bdevs, sels[j], a)
    requires exists j :: 0 <= j < |sels| && SelectsNone(bdevs, sels[j])
    ensures !AllGone(bdevs, sels) && forall i: nat :: !AllAgree(bdevs, sels, i)
  {
    var j :| 0 <= j < |sels| && SelectsOnly(bdevs, sels[j], a);
    OnlyIsUnique(bdevs, sels[j], a);
    var m :| 0 <= m < |sels| && SelectsNone(bdevs, sels[m]);
    NoneExcludesOnly(bdevs, sels[m]);
  }

  // ---------------------------------------------------------------- ownership

  predicate HasStore(id: VolumeIdentity) {
    id.storeUuid != "" || id.storeName != ""
  }

  predicate Claims(id: VolumeIdentity, s: Store) {
    (id.storeUuid != "" && s.uuid == id.storeUuid) || (id.storeName != "" && s.name == id.storeName)
  }

  /** Nothing recorded about the store, and nothing the volume says of it, contradicts `s`. */
  predicate Agrees(candidate: Bdev, id: VolumeIdentity, s: Store) {
    && (id.storeUuid != "" ==> s.uuid == id.storeUuid)
    && (id.storeName != "" ==> s.name == id.storeName)
    && (id.baseBdev != "" ==> s.baseBdev == id.baseBdev)
    && (candidate.storeUuid.Some? && candidate.storeUuid.value != "" ==> s.uuid == candidate.storeUuid.value)
  }

  ghost predicate DistinctStores(stores: seq<Store>) {
    forall i, j :: 0 <= i < j < |stores| ==> stores[i].uuid != stores[j].uuid
  }

  /** The recorded store identifiers single out store `i`, and everything agrees with it. */
  ghost predicate OwnedBy(candidate: Bdev, stores: seq<Store>, id: VolumeIdentity, i: nat) {
    && i < |stores| && Agrees(candidate, id, stores[i])
    && forall j :: 0 <= j < |stores| ==> (Claims(id, stores[j]) <==> j == i)
  }

  method ValidateLvolOwnership(candidate: Bdev, stores: seq<Store>, id: VolumeIdentity) returns (ok: bool)
    ensures ok && HasStore(id) ==> exists i :: 0 <= i < |stores| && Claims(id, stores[i]) && Agrees(candidate, id, stores[i])
    ensures DistinctStores(stores) ==> (ok <==> !HasStore(id) || exists i :: OwnedBy(candidate, stores, id, i))
  {
    var store: Option<nat> := None;
    for k := 0 to |stores|
      invariant store.None? ==> forall j :: 0 <= j < k ==> !Claims(id, stores[j])
      invariant store.Some? ==> store.value < k && Claims(id, stores[store.value])
      invariant store.Some? ==> forall j :: 0 <= j < k && Claims(id, stores[j]) ==> stores[j].uuid == stores[store.value].uuid
    {
      if Claims(id, stores[k]) {
        if store.Some? && stores[store.value].uuid != stores[k].uuid {
          assert forall i: nat :: !OwnedBy(candidate, stores, id, i) by {
            assert Claims(id, stores[store.value]) && Claims(id, stores[k]);
          }
          return false;
        }
        store := Some(k);
      }
    }
    if store.None? {
      return !HasStore(id);
    }
    ok := Agrees(candidate, id, stores[store.value]);
    if DistinctStores(stores) {
      ClaimedOnce(candidate, stores, id, store.value);
    }
  }

  lemma ClaimedOnce(candidate: Bdev, stores: seq<Store>, id: VolumeIdentity, i: nat)
    requires i < |stores| && DistinctStores(stores) && Claims(id, stores[i])
    requires forall j :: 0 <= j < |stores| && Claims(id, stores[j]) ==> stores[j].uuid == stores[i].uuid
    ensures (exists k :: OwnedBy(candidate, stores, id, k)) <==> Agrees(candidate, id, stores[i])
  {
    assert forall j :: 0 <= j < |stores| ==> (Claims(id, stores[j]) <==> j == i);
    if Agrees(candidate, id, stores[i]) {
      assert OwnedBy(candidate, stores, id, i);
    }
  }

  // ---------------------------------------------------------------- deletion

  function Without<T>(s: seq<T>, i: nat): seq<T>
    requires i < |s|
  {
    s[..i] + s[i + 1..]
  }

  /** Removing the volume all identifiers agree on leaves none of them resolving. */
  lemma OneDeletionSuffices(bdevs: seq<Bdev>, sels: seq<Selector>, i: nat)
    requires AllAgree(bdevs, sels, i)
    ensures AllGone(Without(bdevs, i), sels)
  {
    var rest := Without(bdevs, i);
    forall k, j | 0 <= k < |sels| && 0 <= j < |rest|
      ensures !Selects(sels[k], rest[j])
    {
      assert SelectsOnly(bdevs, sels[k], i);
      assert rest[j] == bdevs[if j < i then j else j + 1];
    }
  }

  function Ids(b: Bdev): set<string> {
    ({b.name, b.uuid} + set a | a in b.aliases) - {""}
  }

  /** SPDK registers every name, UUID and alias for one bdev at a time. */
  ghost predicate Registered(bdevs: seq<Bdev>) {
    && (forall i :: 0 <= i < |bdevs| ==> bdevs[i].name != "")
    && (forall i, j :: 0 <= i < j < |bdevs| ==> Ids(bdevs[i]) !! Ids(bdevs[j]))
  }

  lemma WithoutStaysRegistered(bdevs: seq<Bdev>, i: nat)
    requires Registered(bdevs) && i < |bdevs|
    ensures Registered(Without(bdevs, i))
  {
    var rest := Without(bdevs, i);
    forall j, k | 0 <= j < k < |rest|
      ensures Ids(rest[j]) !! Ids(rest[k])
    {
      assert rest[j] == bdevs[if j < i then j else j + 1];
      assert rest[k] == bdevs[if k < i then k else k + 1];
    }
  }

  /** A registered identifier leads to its own bdev only. */
  lemma IdentifierIsExact(bdevs: seq<Bdev>, i: nat, sel: Selector)
    requires Registered(bdevs) && i < |bdevs| && Selects(sel, bdevs[i])
    requires (sel.ByUuid? && sel.uuid != "") || (sel.ByAlias? && sel.alias != "")
    ensures SelectsOnly(bdevs, sel, i)
  {
    var x := if sel.ByUuid? then sel.uuid else sel.alias;
    assert x in Ids(bdevs[i]);
    forall j | 0 <= j < |bdevs| && j != i
      ensures !Selects(sel, bdevs[j])
    {
      assert x !in Ids(bdevs[j]) by {
        if i < j {
          assert Ids(bdevs[i]) !! Ids(bdevs[j]);
        } else {
          assert Ids(bdevs[j]) !! Ids(bdevs[i]);
        }
      }
    }
  }

  // ---------------------------------------------------------------- creation

  function Alias(store: Store, volume: string): string {
    store.name + "/" + volume
  }

  /** uint64 block counts; an error exactly when the product is zero or exceeds int64. */
  function BdevCapacity(b: Bdev): (r: Option<int>)
    ensures r.Some? <==> 0 < Size(b) <= Capacity.MAX_INT64
    ensures r.Some? ==> r.value == Size(b)
  {
    if b.blockSize == 0 || b.numBlocks == 0 then None
    else
      Capacity.ProductFits(b.numBlocks, b.blockSize);
      assert Size(b) > 0;
      if b.numBlocks > Capacity.MAX_INT64 / b.blockSize then None else Some(Size(b))
  }

  function LvolIdentity(b: Bdev, store: Store, volume: string, bytes: int): VolumeIdentity {
    VolumeIdentity(Alias(store, volume), bytes, store.baseBdev, store.name, store.uuid, volume,
                   if b.uuid == "" then b.name else b.uuid)
  }

  /** The identity leads back to bdev `i`, by every identifier it carries and by no other volume. */
  ghost predicate Pins(bdevs: seq<Bdev>, i: nat, store: Store, volume: string, bytes: int, id: VolumeIdentity) {
    && AllAgree(bdevs, Selectors(volume, id), i)
    && Selects(ByAlias(Alias(store, volume)), bdevs[i])
    && Size(bdevs[i]) == bytes == id.capacityBytes
    && id == LvolIdentity(bdevs[i], store, volume, bytes).(volumeUuid := id.volumeUuid)
  }

  lemma IdentityPins(bdevs: seq<Bdev>, i: nat, store: Store, volume: string, bytes: int, id: VolumeIdentity)
    requires Registered(bdevs) && i < |bdevs|
    requires Selects(ByAlias(Alias(store, volume)), bdevs[i])
    requires Size(bdevs[i]) == bytes
    requires id == LvolIdentity(bdevs[i], store, volume, bytes).(volumeUuid := id.volumeUuid)
    requires id.volumeUuid != "" && Selects(ByUuid(id.volumeUuid), bdevs[i])
    ensures Pins(bdevs, i, store, volume, bytes, id)
  {
    assert Selectors(volume, id) == [ByUuid(id.volumeUuid), ByAlias(Alias(store, volume))];
    IdentifierIsExact(bdevs, i, ByUuid(id.volumeUuid));
    IdentifierIsExact(bdevs, i, ByAlias(Alias(store, volume)));
  }

  method FindCreatedLvol(bdevs: seq<Bdev>, alias: string, uuid: string) returns (r: Option<nat>)
    ensures r.Some? <==> exists i :: SelectsOnly(bdevs, ByCreation(alias, uuid), i)
    ensures r.Some? ==> SelectsOnly(bdevs, ByCreation(alias, uuid), r.value)
  {
    var matches := MatchingBdevs(bdevs, ByCreation(alias, uuid));
    r := if |matches| == 1 then Some(matches[0]) else None;
  }

  /** An identity is reported only for a volume of exactly the rounded capacity. */
  function ReportLvol(b: Bdev, store: Store, volume: string, bytes: int, uuid: string): (r: Option<VolumeIdentity>)
    ensures r.Some? ==> Size(b) == bytes == r.value.capacityBytes
    ensures r.Some? ==> r.value == LvolIdentity(b, store, volume, bytes).(volumeUuid := r.value.volumeUuid)
    ensures r.Some? && b.name != "" && (uuid != "" ==> b.uuid == uuid) ==>
      r.value.volumeUuid != "" && Selects(ByUuid(r.value.volumeUuid), b)
  {
    var actual := BdevCapacity(b);
    if actual.None? || actual.value != bytes then None
    else
      var id := LvolIdentity(b, store, volume, bytes);
      Some(if uuid != "" then id.(volumeUuid := uuid) else id)
  }

  /** The one store on the device; an error when there is none or more than one. */
  method LvstoreForBaseBdev(stores: seq<Store>, device: string) returns (r: Option<Store>)
    ensures r.Some? <==> exists i: nat :: OnlyStoreOn(stores, device, i)
    ensures r.Some? ==> exists i: nat :: OnlyStoreOn(stores, device, i) && r.value == stores[i]
  {
    var matches: seq<nat> := [];
    for k := 0 to |stores|
      invariant forall m :: 0 <= m < |matches| ==> matches[m] < k && stores[matches[m]].baseBdev == device
      invariant forall m, n :: 0 <= m < n < |matches| ==> matches[m] < matches[n]
      invariant forall j :: 0 <= j < k && stores[j].baseBdev == device ==> j in matches
    {
      if stores[k].baseBdev == device {
        matches := matches + [k];
      }
    }
    if |matches| == 1 {
      assert OnlyStoreOn(stores, device, matches[0]);
      r := Some(stores[matches[0]]);
    } else {
      r := None;
      assert forall i: nat :: OnlyStoreOn(stores, device, i) ==> stores[i].baseBdev == device;
      assert |matches| > 1 ==> matches[0] != matches[1];
    }
  }

  ghost predicate OnlyStoreOn(stores: seq<Store>, device: string, i: nat) {
    i < |stores| && forall j :: 0 <= j < |stores| ==> (stores[j].baseBdev == device <==> j == i)
  }

  // ---------------------------------------------------------------- the manager

  /** One bdev was added, and it carries the alias. */
  ghost predicate Appended(before: seq<Bdev>, after: seq<Bdev>, alias: string) {
    |after| == |before| + 1 && after[..|before|] == before && alias in after[|before|].aliases
  }

  /** The identity pins one volume in a store on the device. */
  ghost predicate Pinned(stores: seq<Store>, device: string, bdevs: seq<Bdev>, volume: string, bytes: int, id: VolumeIdentity) {
    exists store, i :: store in stores && store.baseBdev == device && Pins(bdevs, i, store, volume, bytes, id)
  }

  /** One volume was added, under an alias that nothing had. */
  ghost predicate NewlyAdded(stores: seq<Store>, device: string, before: seq<Bdev>, after: seq<Bdev>, volume: string) {
    exists store ::
      && store in stores && store.baseBdev == device
      && SelectsNone(before, ByAlias(Alias(store, volume)))
      && Appended(before, after, Alias(store, volume))
  }

  /**
   What one create call may do, whatever fails in between: at most one bdev appears, under an alias
   that nothing had, and a success reports a volume of exactly the rounded capacity.
   */
  ghost predicate Creates(stores: seq<Store>, device: string, before: seq<Bdev>, after: seq<Bdev>,
                          volume: string, size: int, r: Option<VolumeIdentity>) {
    && Registered(after)
    && (r.Some? ==> Capacity.Allocatable(size) && Pinned(stores, device, after, volume, Capacity.Rounded(size), r.value))
    && (after == before || NewlyAdded(stores, device, before, after, volume))
  }

  /** What one delete call may do: at most the one bdev goes that every recorded identifier agrees
      on and whose store matches the record; success means that none of them resolves any more. */
  ghost predicate Deletes(stores: seq<Store>, before: seq<Bdev>, after: seq<Bdev>, volume: string, id: VolumeIdentity, ok: bool) {
    && Registered(after)
    && (ok ==> AllGone(after, Selectors(volume, id)))
    && (after == before || exists i: nat ::
          && AllAgree(before, Selectors(volume, id), i)
          && (DistinctStores(stores) ==> Owned(before[i], stores, id))
          && after == Without(before, i))
    && (AllGone(before, Selectors(volume, id)) ==> after == before)
  }

  /** SPDK can make this bdev: it carries the alias, and no identifier of it is in use. */
  predicate Acceptable(bdevs: seq<Bdev>, alias: string, offer: Bdev) {
    && offer.name != "" && alias in offer.aliases
    && forall j :: 0 <= j < |bdevs| ==> Ids(bdevs[j]) * Ids(offer) == {}
  }

  lemma AppendStaysRegistered(bdevs: seq<Bdev>, alias: string, offer: Bdev)
    requires Registered(bdevs) && Acceptable(bdevs, alias, offer)
    ensures Registered(bdevs + [offer])
  {
  }

  /** The volume is there with the right capacity, or SPDK can make one. */
  ghost predicate CreatableIn(store: Store, bdevs: seq<Bdev>, volume: string, bytes: int, offer: Bdev) {
    if SelectsNone(bdevs, ByAlias(Alias(store, volume)))
    then Acceptable(bdevs, Alias(store, volume), offer) && Size(offer) == bytes
    else exists i :: 0 <= i < |bdevs| && Selects(ByAlias(Alias(store, volume)), bdevs[i]) && Size(bdevs[i]) == bytes
  }

  ghost predicate Creatable(stores: seq<Store>, bdevs: seq<Bdev>, device: string, volume: string, size: int, offer: Bdev) {
    && Capacity.Allocatable(size)
    && exists k: nat :: OnlyStoreOn(stores, device, k) && CreatableIn(stores[k], bdevs, volume, Capacity.Rounded(size), offer)
  }

  /** Nothing is left to delete, or everything agrees on one volume of the recorded store. */
  ghost predicate Deletable(stores: seq<Store>, bdevs: seq<Bdev>, volume: string, id: VolumeIdentity) {
    || AllGone(bdevs, Selectors(volume, id))
    || exists i: nat :: AllAgree(bdevs, Selectors(volume, id), i) && Owned(bdevs[i], stores, id)
  }

  ghost predicate Owned(candidate: Bdev, stores: seq<Store>, id: VolumeIdentity) {
    !HasStore(id) || exists s: nat :: OwnedBy(candidate, stores, id, s)
  }

  ghost predicate DistinctStoreNames(stores: seq<Store>) {
    forall i, j :: 0 <= i < j < |stores| ==> stores[i].name != stores[j].name
  }

  /** The volume says nothing of its store, or names this one. */
  predicate Homed(b: Bdev, store: Store) {
    b.storeUuid.Some? && b.storeUuid.value != "" ==> b.storeUuid.value == store.uuid
  }

  /** Create, then delete: the identity a create reports is enough for its volume to be deleted. */
  lemma CreatedIsDeletable(stores: seq<Store>, k: nat, bdevs: seq<Bdev>, i: nat, volume: string, bytes: int, id: VolumeIdentity)
    requires DistinctStores(stores) && DistinctStoreNames(stores) && k < |stores|
    requires Pins(bdevs, i, stores[k], volume, bytes, id) && Homed(bdevs[i], stores[k])
    ensures Deletable(stores, bdevs, volume, id)
  {
    if HasStore(id) {
      forall j | 0 <= j < |stores|
        ensures Claims(id, stores[j]) <==> j == k
      {
        if j != k {
          assert stores[j].uuid != stores[k].uuid && stores[j].name != stores[k].name;
        }
      }
      assert OwnedBy(bdevs[i], stores, id, k);
    }
    assert Owned(bdevs[i], stores, id);
  }

  lemma OwnStoreIsUnique(stores: seq<Store>, device: string, i: nat, j: nat)
    requires OnlyStoreOn(stores, device, i) && OnlyStoreOn(stores, device, j)
    ensures i == j
  {
    assert stores[i].baseBdev == device;
  }

  class SpdkLvolManager {
    const reliable: bool
    const stores: seq<Store>
    var bdevs: seq<Bdev>

    constructor (stores: seq<Store>, bdevs: seq<Bdev>, reliable: bool)
      ensures this.stores == stores && this.bdevs == bdevs && this.reliable == reliable
    {
      this.stores, this.bdevs, this.reliable := stores, bdevs, reliable;
    }

    method Listed() returns (ok: bool)
      ensures reliable ==> ok
    {
      ok := *;
      ok := ok || reliable;
    }

    /** bdev_lvol_delete: by name, possibly with a lost response. */
    method LvolDelete(i: nat) returns (ok: bool)
      requires i < |bdevs| && Registered(bdevs)
      modifies this
      ensures Registered(bdevs)
      ensures ok ==> bdevs == Without(old(bdevs), i)
      ensures bdevs == old(bdevs) || bdevs == Without(old(bdevs), i)
      ensures reliable ==> ok
    {
      ok := *;
      ok := ok || reliable;
      var applied: bool := *;
      if ok || applied {
        WithoutStaysRegistered(bdevs, i);
        bdevs := Without(bdevs, i);
      }
    }

    /**
     bdev_lvol_create: `offer` is the bdev SPDK would make.  The capacity it turns out to have
     is whatever SPDK rounds the request to; a reliable SPDK makes exactly what it is asked for.
     */
    method LvolCreate(alias: string, mebibytes: int, offer: Bdev) returns (ok: bool, uuid: string)
      requires Registered(bdevs)
      modifies this
      ensures Registered(bdevs)
      ensures bdevs == old(bdevs) || (bdevs == old(bdevs) + [offer] && alias in offer.aliases)
      ensures ok ==> bdevs == old(bdevs) + [offer] && alias in offer.aliases
      ensures ok && uuid != "" ==> offer.uuid == uuid
      ensures reliable ==> (ok <==> Acceptable(old(bdevs), alias, offer) && Size(offer) == mebibytes * MEBIBYTE)
    {
      ok, uuid := false, "";
      var lost: bool := *;
      var silent: bool := *;
      var exact := Size(offer) == mebibytes * MEBIBYTE;
      if Acceptable(bdevs, alias, offer) && (exact || !reliable) {
        AppendStaysRegistered(bdevs, alias, offer);
        bdevs := bdevs + [offer];
        ok := reliable || !lost;
        uuid := if silent then "" else offer.uuid;
      }
    }

    /**
     Deletes at most the one volume that every recorded identifier agrees on and whose store
     matches the record.  Success means that no recorded identifier resolves any more.
     */
    method DeleteVolume(volume: string, id: VolumeIdentity) returns (ok: bool)
      requires Registered(bdevs)
      modifies this
      ensures Deletes(stores, old(bdevs), bdevs, volume, id, ok)
      ensures reliable && DistinctStores(stores) ==> (ok <==> Deletable(stores, old(bdevs), volume, id))
    {
      var listed := Listed();
      if !listed {
        return false;
      }
      var r := ResolveLvolForDeletion(bdevs, volume, id);
      if r.Refused? {
        return false;
      }
      if r.Gone? {
        return true;
      }
      assert AllAgree(bdevs, Selectors(volume, id), r.index);
      ResolutionIsExclusive(bdevs, Selectors(volume, id), r.index);
      var owned := ValidateLvolOwnership(bdevs[r.index], stores, id);
      if !owned {
        return false;
      }
      OneDeletionSuffices(bdevs, Selectors(volume, id), r.index);
      var deleted := LvolDelete(r.index);
      listed := Listed();
      if !listed {
        return false;
      }
      var remaining := ResolveLvolForDeletion(bdevs, volume, id);
      ok := remaining.Gone?;
    }

    /**
     Creates the volume, or reports the one an earlier call left behind.  The identity
     returned is enough to find exactly this volume again.
     */
    method CreateVolume(device: string, volume: string, size: Capacity.int64, offer: Bdev) returns (r: Option<VolumeIdentity>)
      requires Registered(bdevs)
      modifies this
      ensures Creates(stores, device, old(bdevs), bdevs, volume, size as int, r)
      ensures reliable ==> (r.Some? <==> Creatable(stores, old(bdevs), device, volume, size as int, offer))
    {
      var rounded := Capacity.RoundUp(size);
      var listed := Listed();
      if rounded.None? || !listed {
        return None;
      }
      var bytes := rounded.value as int;
      var chosen := LvstoreForBaseBdev(stores, device);
      if chosen.None? {
        return None;
      }
      ghost var k: nat :| OnlyStoreOn(stores, device, k) && chosen.value == stores[k];
      assert forall j: nat :: OnlyStoreOn(stores, device, j) ==> j == k by {
        forall j: nat | OnlyStoreOn(stores, device, j) ensures j == k {
          OwnStoreIsUnique(stores, device, j, k);
        }
      }
      assert stores[k] in stores && stores[k].baseBdev == device;
      r := CreateIn(chosen.value, volume, bytes, offer);
    }

    method CreateIn(store: Store, volume: string, bytes: int, offer: Bdev) returns (r: Option<VolumeIdentity>)
      requires Registered(bdevs) && 0 < bytes <= Capacity.MAX_INT64 && bytes % Capacity.UNIT == 0
      modifies this
      ensures Registered(bdevs)
      ensures r.Some? ==> exists i :: Pins(bdevs, i, store, volume, bytes, r.value)
      ensures bdevs == old(bdevs) || (SelectsNone(old(bdevs), ByAlias(Alias(store, volume))) && Appended(old(bdevs), bdevs, Alias(store, volume)))
      ensures reliable ==> (r.Some? <==> CreatableIn(store, old(bdevs), volume, bytes, offer))
    {
      var alias := Alias(store, volume);
      var present := FindCreatedLvol(bdevs, alias, "");
      if present.Some? {
        OnlyIsUnique(bdevs, ByCreation(alias, ""), present.value);
        r := ReportLvol(bdevs[present.value], store, volume, bytes, "");
        if r.Some? {
          IdentityPins(bdevs, present.value, store, volume, bytes, r.value);
        }
        return;
      }
      var others := MatchingBdevs(bdevs, ByAlias(alias));
      if |others| > 1 {
        // No two registered bdevs share an alias.
        IdentifierIsExact(bdevs, others[0], ByAlias(alias));
        assert false;
      }
      NothingYet(bdevs, alias);
      r := CreateNew(store, volume, bytes, offer);
    }

    method CreateNew(store: Store, volume: string, bytes: int, offer: Bdev) returns (r: Option<VolumeIdentity>)
      requires Registered(bdevs) && 0 < bytes <= Capacity.MAX_INT64 && bytes % Capacity.UNIT == 0
      requires SelectsNone(bdevs, ByAlias(Alias(store, volume)))
      modifies this
      ensures Registered(bdevs)
      ensures r.Some? ==> exists i :: Pins(bdevs, i, store, volume, bytes, r.value)
      ensures bdevs == old(bdevs) || Appended(old(bdevs), bdevs, Alias(store, volume))
      ensures reliable ==> (r.Some? <==> CreatableIn(store, old(bdevs), volume, bytes, offer))
    {
      var alias := Alias(store, volume);
      ghost var before := bdevs;
      var mebibytes := bytes / MEBIBYTE;
      WholeMebibytes(bytes);
      var created, uuid := LvolCreate(alias, mebibytes, offer);
      var listed := Listed();
      if !created || !listed {
        return None;
      }
      assert bdevs[|before|] == offer && Selects(ByCreation(alias, uuid), offer);
      CreatedIsFound(bdevs, |before|, alias, uuid);
      var index := FindCreatedLvol(bdevs, alias, uuid);
      if index.None? {
        return None;
      }
      OnlyIsUnique(bdevs, ByCreation(alias, uuid), index.value);
      r := ReportLvol(offer, store, volume, bytes, uuid);
      if r.Some? {
        IdentityPins(bdevs, index.value, store, volume, bytes, r.value);
      }
    }
  }

  /** The request in MiB loses nothing. */
  lemma WholeMebibytes(bytes: int)
    requires bytes % Capacity.UNIT == 0
    ensures bytes / MEBIBYTE * MEBIBYTE == bytes
  {
    var units := bytes / Capacity.UNIT;
    assert bytes == (4 * units) * MEBIBYTE;
  }

  /** A registered volume is found by its alias and UUID, and nothing else is. */
  lemma CreatedIsFound(bdevs: seq<Bdev>, i: nat, alias: string, uuid: string)
    requires Registered(bdevs) && i < |bdevs| && alias != "" && alias in bdevs[i].aliases && (uuid != "" ==> bdevs[i].uuid == uuid)
    ensures SelectsOnly(bdevs, ByCreation(alias, uuid), i)
  {
    IdentifierIsExact(bdevs, i, ByAlias(alias));
    if uuid != "" {
      IdentifierIsExact(bdevs, i, ByUuid(uuid));
    }
  }

  lemma NothingYet(bdevs: seq<Bdev>, alias: string)
    requires !exists i :: SelectsOnly(bdevs, ByCreation(alias, ""), i)
    requires SelectsNone(bdevs, ByAlias(alias)) || exists i :: SelectsOnly(bdevs, ByAlias(alias), i)
    ensures SelectsNone(bdevs, ByAlias(alias))
  {
    if i :| SelectsOnly(bdevs, ByAlias(alias), i) {
      assert SelectsOnly(bdevs, ByCreation(alias, ""), i);
    }
  }
}
