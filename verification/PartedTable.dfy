/**
 A GPT partition table as the agent sees it through parted: partitions in disk order, the
 free extents between them, first-fit selection and lowest-free numbering.
 */
module PartedTable {
  import opened Options
  import opened Capacity

  const ALIGNMENT: int := 1024 * 1024

  datatype Part = Part(number: int, first: int, last: int, name: string)

  datatype Extent = Extent(first: int, last: int)

  function Length(p: Part): int {
    p.last - p.first + 1
  }

  predicate Apart(p: Part, first: int, last: int) {
    p.last < first || last < p.first
  }

  predicate ApartFromAll(t: seq<Part>, first: int, last: int) {
    forall i :: 0 <= i < |t| ==> Apart(t[i], first, last)
  }

  /** Partitions lie in the usable range in disk order, without overlap, each with its own number. */
  ghost predicate WellFormed(t: seq<Part>, lo: int, hi: int) {
    && 0 <= lo
    && (forall i :: 0 <= i < |t| ==> lo <= t[i].first <= t[i].last <= hi && t[i].number >= 1)
    && (forall i, j :: 0 <= i < j < |t| ==> t[i].last < t[j].first)
    && (forall i, j :: 0 <= i < j < |t| ==> t[i].number != t[j].number)
  }

  // ---------------------------------------------------------------- free extents

  /** The free rows of `parted print free`, from `cursor` on. */
  function Gaps(t: seq<Part>, cursor: int, hi: int): seq<Extent> {
    if t == [] then (if cursor <= hi then [Extent(cursor, hi)] else [])
    else (if cursor < t[0].first then [Extent(cursor, t[0].first - 1)] else []) + Gaps(t[1..], t[0].last + 1, hi)
  }

  lemma TailWellFormed(t: seq<Part>, lo: int, hi: int)
    requires WellFormed(t, lo, hi) && t != []
    ensures WellFormed(t[1..], t[0].last + 1, hi)
  {
    assert forall i :: 0 <= i < |t[1..]| ==> t[1..][i] == t[i + 1];
  }

  /** Every extent reported free is inside the usable range and touches no partition. */
  lemma {:induction false} GapsAreFree(t: seq<Part>, cursor: int, hi: int, e: Extent)
    requires WellFormed(t, cursor, hi) && e in Gaps(t, cursor, hi)
    ensures cursor <= e.first <= e.last <= hi && ApartFromAll(t, e.first, e.last)
  {
    if t != [] {
      TailWellFormed(t, cursor, hi);
      if cursor < t[0].first && e == Extent(cursor, t[0].first - 1) {
        assert forall i :: 0 < i < |t| ==> t[0].last < t[i].first;
      } else {
        GapsAreFree(t[1..], t[0].last + 1, hi, e);
        forall i | 0 <= i < |t| ensures Apart(t[i], e.first, e.last) {
          if i > 0 {
            assert t[1..][i - 1] == t[i];
          }
        }
      }
    }
  }

  /** Every free interval lies within one reported extent. */
  lemma {:induction false} GapsAreAll(t: seq<Part>, cursor: int, hi: int, first: int, last: int) returns (e: Extent)
    requires WellFormed(t, cursor, hi)
    requires cursor <= first <= last <= hi && ApartFromAll(t, first, last)
    ensures e in Gaps(t, cursor, hi) && e.first <= first && last <= e.last
  {
    if t == [] {
      e := Extent(cursor, hi);
    } else if last < t[0].first {
      e := Extent(cursor, t[0].first - 1);
    } else {
      TailWellFormed(t, cursor, hi);
      assert Apart(t[0], first, last);
      assert forall i :: 0 <= i < |t[1..]| ==> t[1..][i] == t[i + 1];
      e := GapsAreAll(t[1..], t[0].last + 1, hi, first, last);
    }
  }

  // ---------------------------------------------------------------- first fit

  function AlignUp(value: int): (r: int)
    ensures r % ALIGNMENT == 0 && value <= r < value + ALIGNMENT
    ensures forall a: int :: a % ALIGNMENT == 0 && value <= a ==> r <= a
  {
    (value + ALIGNMENT - 1) / ALIGNMENT * ALIGNMENT
  }

  predicate Holds(e: Extent, size: int) {
    AlignUp(e.first) <= e.last && size - 1 <= e.last - AlignUp(e.first)
  }

  function FirstFit(extents: seq<Extent>, size: int): Option<Extent> {
    if extents == [] then None
    else if Holds(extents[0], size) then Some(Extent(AlignUp(extents[0].first), AlignUp(extents[0].first) + size - 1))
    else FirstFit(extents[1..], size)
  }

  /** selectFreeExtent */
  method SelectFreeExtent(extents: seq<Extent>, size: int) returns (r: Option<Extent>)
    ensures r == if size <= 0 then None else FirstFit(extents, size)
  {
    if size <= 0 {
      return None;
    }
    for i := 0 to |extents|
      invariant FirstFit(extents, size) == FirstFit(extents[i..], size)
    {
      var start := AlignUp(extents[i].first);
      if start <= extents[i].last && size - 1 <= extents[i].last - start {
        return Some(Extent(start, start + size - 1));
      }
      assert extents[i..][1..] == extents[i + 1..];
    }
    r := None;
  }

  lemma {:induction false} FirstFitWithin(extents: seq<Extent>, size: int)
    ensures FirstFit(extents, size).Some? <==> exists e :: e in extents && Holds(e, size)
    ensures FirstFit(extents, size).Some? ==>
              exists e :: e in extents && Holds(e, size)
                          && FirstFit(extents, size).value == Extent(AlignUp(e.first), AlignUp(e.first) + size - 1)
  {
    if extents != [] {
      if Holds(extents[0], size) {
        assert extents[0] in extents;
      } else {
        FirstFitWithin(extents[1..], size);
        assert forall e :: e in extents ==> e == extents[0] || e in extents[1..];
      }
    }
  }

  /** What first fit returns is aligned, of the right length, in range and unoccupied. */
  lemma FirstFitIsFree(t: seq<Part>, lo: int, hi: int, size: int)
    requires WellFormed(t, lo, hi) && size > 0 && FirstFit(Gaps(t, lo, hi), size).Some?
    ensures var e := FirstFit(Gaps(t, lo, hi), size).value;
            && e.first % ALIGNMENT == 0 && e.last - e.first + 1 == size
            && lo <= e.first <= e.last <= hi && ApartFromAll(t, e.first, e.last)
  {
    FirstFitWithin(Gaps(t, lo, hi), size);
    var gap :| gap in Gaps(t, lo, hi) && Holds(gap, size)
               && FirstFit(Gaps(t, lo, hi), size).value == Extent(AlignUp(gap.first), AlignUp(gap.first) + size - 1);
    GapsAreFree(t, lo, hi, gap);
    var e := FirstFit(Gaps(t, lo, hi), size).value;
    forall i | 0 <= i < |t| ensures Apart(t[i], e.first, e.last) {
      assert Apart(t[i], gap.first, gap.last);
    }
  }

  /** First fit fails only when no aligned position anywhere in the usable range is free. */
  lemma FirstFitFailsOnlyWhenFull(t: seq<Part>, lo: int, hi: int, size: int, start: int)
    requires WellFormed(t, lo, hi) && size > 0 && FirstFit(Gaps(t, lo, hi), size).None?
    requires start % ALIGNMENT == 0 && lo <= start && start + size - 1 <= hi
    ensures !ApartFromAll(t, start, start + size - 1)
  {
    if ApartFromAll(t, start, start + size - 1) {
      var e := GapsAreAll(t, lo, hi, start, start + size - 1);
      assert AlignUp(e.first) <= start;
      assert Holds(e, size);
      FirstFitWithin(Gaps(t, lo, hi), size);
    }
  }

  // ---------------------------------------------------------------- numbering

  /** No partition has the number, and every smaller positive number is taken. */
  ghost predicate LowestFree(t: seq<Part>, n: int) {
    n >= 1 && !Taken(t, n) && forall m :: 1 <= m < n ==> Taken(t, m)
  }

  predicate Taken(t: seq<Part>, n: int) {
    exists i :: 0 <= i < |t| && t[i].number == n
  }

  lemma {:induction false} IntervalCardinality(s: set<int>, n: nat)
    requires forall m :: 1 <= m <= n ==> m in s
    ensures n <= |s|
  {
    if n > 0 {
      IntervalCardinality(s - {n}, n - 1);
    }
  }

  /** lowestAvailablePartitionNumber: the open-ended search stops within one past the table size. */
  method LowestAvailable(t: seq<Part>) returns (n: int)
    ensures LowestFree(t, n) && n <= |t| + 1
  {
    var used: set<int> := {};
    for i := 0 to |t|
      invariant forall m :: m in used <==> Taken(t[..i], m)
      invariant |used| <= i
    {
      used := used + {t[i].number};
      forall m ensures Taken(t[..i + 1], m) <==> Taken(t[..i], m) || m == t[i].number {
        assert t[..i + 1] == t[..i] + [t[i]];
        assert t[..i + 1][i] == t[i];
        if k :| 0 <= k < i && t[..i][k].number == m {
          assert t[..i + 1][k].number == m;
        }
      }
    }
    assert t[..|t|] == t;
    n := 1;
    while n in used
      invariant n >= 1
      invariant forall m :: 1 <= m < n ==> m in used
      invariant n - 1 <= |used|
      decreases |used| + 1 - n
    {
      IntervalCardinality(used, n);
      n := n + 1;
    }
  }

  lemma LowestFreeIsUnique(t: seq<Part>, n: int, m: int)
    requires LowestFree(t, n) && LowestFree(t, m)
    ensures n == m
  {
    assert n < m ==> Taken(t, n);
    assert m < n ==> Taken(t, m);
  }

  // ---------------------------------------------------------------- insertion and removal

  function Insert(t: seq<Part>, p: Part): seq<Part> {
    if t == [] || p.first < t[0].first then [p] + t else [t[0]] + Insert(t[1..], p)
  }

  lemma {:induction false} InsertContents(t: seq<Part>, p: Part)
    ensures forall q :: q in Insert(t, p) <==> q == p || q in t
    ensures |Insert(t, p)| == |t| + 1
  {
    if t != [] && p.first >= t[0].first {
      InsertContents(t[1..], p);
      assert t == [t[0]] + t[1..];
    }
  }

  lemma ConsWellFormed(p: Part, t: seq<Part>, lo: int, hi: int)
    requires 0 <= lo <= p.first <= p.last <= hi && p.number >= 1
    requires WellFormed(t, p.last + 1, hi) && forall q :: q in t ==> q.number != p.number
    ensures WellFormed([p] + t, lo, hi)
  {
    var t' := [p] + t;
    assert forall i :: 0 < i < |t'| ==> t'[i] == t[i - 1] && t[i - 1] in t;
  }

  lemma RaiseFloor(t: seq<Part>, lo: int, hi: int, floor: int)
    requires WellFormed(t, lo, hi) && 0 <= floor && (t != [] ==> floor <= t[0].first)
    ensures WellFormed(t, floor, hi)
  {
    assert forall i :: 0 < i < |t| ==> t[0].last < t[i].first;
  }

  lemma {:induction false} InsertWellFormed(t: seq<Part>, lo: int, hi: int, p: Part)
    requires WellFormed(t, lo, hi)
    requires lo <= p.first <= p.last <= hi && p.number >= 1 && ApartFromAll(t, p.first, p.last)
    requires forall q :: q in t ==> q.number != p.number
    ensures WellFormed(Insert(t, p), lo, hi)
  {
    if t == [] || p.first < t[0].first {
      assert t != [] ==> Apart(t[0], p.first, p.last);
      RaiseFloor(t, lo, hi, p.last + 1);
      ConsWellFormed(p, t, lo, hi);
    } else {
      assert Apart(t[0], p.first, p.last);
      TailWellFormed(t, lo, hi);
      assert forall i :: 0 <= i < |t[1..]| ==> t[1..][i] == t[i + 1];
      InsertWellFormed(t[1..], t[0].last + 1, hi, p);
      InsertContents(t[1..], p);
      ConsWellFormed(t[0], Insert(t[1..], p), lo, hi);
    }
  }

  lemma RemoveWellFormed(t: seq<Part>, lo: int, hi: int, k: nat)
    requires WellFormed(t, lo, hi) && k < |t|
    ensures WellFormed(t[..k] + t[k + 1..], lo, hi)
    ensures forall q :: q in t[..k] + t[k + 1..] <==> q in t && q != t[k]
  {
    var t' := t[..k] + t[k + 1..];
    assert forall i :: 0 <= i < |t'| ==> t'[i] == t[if i < k then i else i + 1];
    forall q | q in t && q != t[k] ensures q in t' {
      var i :| 0 <= i < |t| && t[i] == q;
      assert t'[if i < k then i else i - 1] == q;
    }
  }
}
