/**
 The arithmetic between the advertised capacity and the disk: GPT geometry and packed tables.
 */
module CapacityBooks {
  import opened Options
  import opened PartedTable
  import PartedVolumes
  import Capacity

  // ---------------------------------------------------------------- GPT geometry

  /** Section 5.3 of the UEFI Specification: protective MBR, header and 16 KiB of entries in
      front, entries and header again at the end. */
  function GptFirst(sector: int): int {
    2 * sector + 16384
  }

  function GptLast(raw: int, sector: int): int {
    raw - 1 - (sector + 16384)
  }

  // ---------------------------------------------------------------- packed tables

  function Carved(t: seq<Part>): int {
    if t == [] then 0 else Length(t[0]) + Carved(t[1..])
  }

  /** Partitions of whole units follow each other without gaps from `start` on. */
  ghost predicate PackedFrom(t: seq<Part>, start: int) {
    t == [] || (t[0].first == start && Length(t[0]) > 0 && Length(t[0]) % Capacity.UNIT == 0 && PackedFrom(t[1..], t[0].last + 1))
  }

  lemma {:induction false} PackedGaps(t: seq<Part>, start: int, hi: int)
    requires PackedFrom(t, start)
    ensures Gaps(t, start, hi) == if start + Carved(t) <= hi then [Extent(start + Carved(t), hi)] else []
  {
    if t != [] {
      PackedGaps(t[1..], t[0].last + 1, hi);
    }
  }

  lemma {:induction false} PackedAligned(t: seq<Part>, start: int)
    requires PackedFrom(t, start) && start % ALIGNMENT == 0
    ensures (start + Carved(t)) % ALIGNMENT == 0 && Carved(t) >= 0
  {
    if t != [] {
      UnitsAreAligned(start, Length(t[0]));
      PackedAligned(t[1..], t[0].last + 1);
    }
  }

  lemma UnitsAreAligned(start: int, n: int)
    requires start % ALIGNMENT == 0 && n % Capacity.UNIT == 0
    ensures (start + n) % ALIGNMENT == 0
  {
    var r, q := start / ALIGNMENT, n / Capacity.UNIT;
    assert start + n == (r + 4 * q) * ALIGNMENT;
  }

  lemma AlignedStays(value: int)
    requires value % ALIGNMENT == 0
    ensures AlignUp(value) == value
  {
  }

  lemma HeadAlignsToFirstMiB(lo: int)
    requires 0 < lo <= ALIGNMENT
    ensures AlignUp(lo) == ALIGNMENT
  {
  }

  /** In a packed table first fit looks at one place only: right behind the last partition. */
  lemma PackedFirstFit(t: seq<Part>, lo: int, hi: int, n: int)
    requires PackedFrom(t, ALIGNMENT) && 0 < lo <= ALIGNMENT <= hi && Capacity.UNIT <= n
    ensures var next := ALIGNMENT + Carved(t);
            FirstFit(Gaps(t, lo, hi), n) == if next + n - 1 <= hi then Some(Extent(next, next + n - 1)) else None
  {
    var next := ALIGNMENT + Carved(t);
    HeadAlignsToFirstMiB(lo);
    PackedAligned(t, ALIGNMENT);
    AlignedStays(next);
    if t == [] {
      assert Gaps(t, lo, hi) == [Extent(lo, hi)];
      assert FirstFit([], n) == None;
      assert [Extent(lo, hi)][1..] == [];
    } else {
      PackedGaps(t[1..], t[0].last + 1, hi);
      var tail := Gaps(t[1..], t[0].last + 1, hi);
      assert tail == if next <= hi then [Extent(next, hi)] else [];
      assert FirstFit(tail, n) == if next + n - 1 <= hi then Some(Extent(next, next + n - 1)) else None by {
        if next <= hi {
          assert tail[1..] == [];
        }
      }
      if lo < ALIGNMENT {
        assert Gaps(t, lo, hi) == [Extent(lo, ALIGNMENT - 1)] + tail;
        assert ([Extent(lo, ALIGNMENT - 1)] + tail)[1..] == tail;
        assert !Holds(Extent(lo, ALIGNMENT - 1), n);
      } else {
        assert Gaps(t, lo, hi) == tail;
      }
    }
  }

  lemma {:induction false} InsertAtEnd(t: seq<Part>, start: int, p: Part)
    requires PackedFrom(t, start) && p.first == start + Carved(t) && Length(p) > 0 && Length(p) % Capacity.UNIT == 0
    ensures Insert(t, p) == t + [p] && PackedFrom(t + [p], start) && Carved(t + [p]) == Carved(t) + Length(p)
  {
    if t == [] {
      assert [] + [p] == [p] && [p][1..] == [];
    } else {
      PackedNonNegative(t[1..], t[0].last + 1);
      InsertAtEnd(t[1..], t[0].last + 1, p);
      assert (t + [p])[1..] == t[1..] + [p];
      assert [t[0]] + (t[1..] + [p]) == t + [p];
    }
  }

  lemma {:induction false} PackedNonNegative(t: seq<Part>, start: int)
    requires PackedFrom(t, start)
    ensures Carved(t) >= 0
  {
    if t != [] {
      PackedNonNegative(t[1..], t[0].last + 1);
    }
  }

  lemma PlacedPacks(lo: int, hi: int, t: seq<Part>, p: Part, size: int)
    requires PackedFrom(t, ALIGNMENT) && 0 < lo <= ALIGNMENT <= hi && Capacity.Allocatable(size)
    requires PartedVolumes.Placed(lo, hi, t, p, size)
    ensures Insert(t, p) == t + [p] && PackedFrom(t + [p], ALIGNMENT) && Carved(t + [p]) == Carved(t) + Capacity.Rounded(size)
  {
    Capacity.RoundedIsLeast(size);
    PackedFirstFit(t, lo, hi, Capacity.Rounded(size));
    InsertAtEnd(t, ALIGNMENT, p);
  }

  /** A create that mkpart carried out as told keeps the table packed and adds exactly the rounded
      size, whatever the call then reported. */
  lemma CreatePacks(device: string, lo: int, hi: int, t: seq<Part>, t': seq<Part>, name: string, size: int, r: Option<PartedVolumes.VolumeIdentity>)
    requires PackedFrom(t, ALIGNMENT) && 0 < lo <= ALIGNMENT <= hi && t' != t
    requires PartedVolumes.Creates(device, lo, hi, t, t', name, size, r)
    requires PartedVolumes.Obedient(lo, hi, t, t', PartedVolumes.CreateOp(name, size, r))
    ensures PackedFrom(t', ALIGNMENT) && Carved(t') == Carved(t) + Capacity.Rounded(size)
  {
    var p :| t' == Insert(t, p) && PartedVolumes.Placed(lo, hi, t, p, size);
    PlacedPacks(lo, hi, t, p, size);
  }

  /** On a GPT disk of at least 128 MiB with 512- or 4096-byte sectors, whatever the scheduler
      admits against the advertised capacity has a place, while nothing has been deleted. */
  lemma AdmittedFits(raw: int, sector: int, t: seq<Part>, n: int)
    requires raw >= 128 * 1024 * 1024 && (sector == 512 || sector == 4096)
    requires PackedFrom(t, ALIGNMENT) && Capacity.UNIT <= n && Carved(t) + n <= Capacity.Advertised(raw)
    ensures FirstFit(Gaps(t, GptFirst(sector), GptLast(raw, sector)), n).Some?
  {
    PackedNonNegative(t, ALIGNMENT);
    assert Capacity.Advertised(raw) <= raw * 99 / 100;
    PackedFirstFit(t, GptFirst(sector), GptLast(raw, sector), n);
  }
}
