/**
 Allocation-unit arithmetic: 4 MiB rounding, CSI capacity ranges, and the capacity a
 namespace advertises.  The `int64` newtype makes the verifier check every intermediate
 value against Go's int64 range, so a body that verifies does not overflow.
 */
module Capacity {
  import opened Options

  newtype int64 = x: int | -0x8000_0000_0000_0000 <= x < 0x8000_0000_0000_0000

  const MAX_INT64: int := 0x7fff_ffff_ffff_ffff
  const UNIT: int := 4 * 1024 * 1024
  const MAX_ALLOCATABLE: int := MAX_INT64 / UNIT * UNIT
  const DEFAULT_BYTES: int := 1024 * 1024 * 1024

  /** Upward rounding to whole units, on unbounded integers. */
  function Rounded(bytes: int): int {
    (bytes + UNIT - 1) / UNIT * UNIT
  }

  /** The capacities that can be requested at all. */
  predicate Allocatable(bytes: int) {
    0 < bytes <= MAX_ALLOCATABLE
  }

  /** `m` is the least whole number of units that covers `bytes`. */
  ghost predicate LeastUnits(bytes: int, m: int) {
    && m % UNIT == 0 && bytes <= m
    && forall n: int :: n % UNIT == 0 && bytes <= n ==> m <= n
  }

  lemma RoundedIsLeast(bytes: int)
    ensures LeastUnits(bytes, Rounded(bytes))
    ensures Rounded(bytes) < bytes + UNIT
    ensures 0 < bytes ==> UNIT <= Rounded(bytes)
    ensures bytes <= MAX_ALLOCATABLE ==> Rounded(bytes) <= MAX_ALLOCATABLE
  {
  }

  /** Go's int64 addition: two's-complement wrap-around. */
  function Wrapped(x: int): int64 {
    ((x + 0x8000_0000_0000_0000) % 0x1_0000_0000_0000_0000 - 0x8000_0000_0000_0000) as int64
  }

  /** capacity.RoundUp: an error exactly for capacities outside the allocatable range. */
  function RoundUp(bytes: int64): (r: Option<int64>)
    ensures r.Some? <==> Allocatable(bytes as int)
    ensures r.Some? ==> LeastUnits(bytes as int, r.value as int) && Allocatable(r.value as int)
    ensures r.Some? ==> r.value as int == Rounded(bytes as int)
  {
    RoundedIsLeast(bytes as int);
    if bytes <= 0 then None
    else if bytes > MAX_ALLOCATABLE as int64 then None
    else
      // For the largest capacity the first sum wraps and the subtraction wraps it back.
      OnlyLargestCapacityWraps(bytes);
      var sum := Wrapped(Wrapped(bytes as int + UNIT) as int - 1);
      Some(sum / UNIT as int64 * UNIT as int64)
  }

  /** The intermediate sum leaves int64 for exactly one accepted capacity, the largest. */
  lemma OnlyLargestCapacityWraps(bytes: int64)
    requires Allocatable(bytes as int)
    ensures Wrapped(bytes as int + UNIT) as int != bytes as int + UNIT <==> bytes as int == MAX_ALLOCATABLE
    ensures Wrapped(Wrapped(bytes as int + UNIT) as int - 1) as int == bytes as int + UNIT - 1
  {
  }

  /** The constant the NVMePartition schema compares sizes with. */
  lemma SchemaLimitIsMaxAllocatable()
    ensures MAX_ALLOCATABLE == 9223372036850581504
    ensures forall n: int :: n % UNIT == 0 && n <= MAX_INT64 ==> n <= MAX_ALLOCATABLE
  {
  }

  // ---------------------------------------------------------------- CSI capacity ranges

  datatype CapacityRange = CapacityRange(requiredBytes: int64, limitBytes: int64)

  /** The requirement after defaulting: one GiB, or all of a smaller limit. */
  function EffectiveRequired(range: CapacityRange): int {
    if range.requiredBytes > 0 then range.requiredBytes as int
    else if range.limitBytes as int < DEFAULT_BYTES then range.limitBytes as int / UNIT * UNIT
    else DEFAULT_BYTES
  }

  /** Some positive, int64-representable number of whole units lies in the range. */
  ghost predicate Satisfiable(range: CapacityRange) {
    Ordered(range) && exists m: int :: Fits(range, m)
  }

  ghost predicate Fits(range: CapacityRange, m: int) {
    && m % UNIT == 0 && 0 < m <= MAX_INT64
    && range.requiredBytes as int <= m
    && (range.limitBytes > 0 ==> m <= range.limitBytes as int)
  }

  ghost predicate Ordered(range: CapacityRange) {
    && 0 <= range.requiredBytes && 0 <= range.limitBytes
    && !(range.requiredBytes == 0 && range.limitBytes == 0)
  }

  /** The effective requirement can be rounded up without passing the limit. */
  ghost predicate RoundsWithin(range: CapacityRange) {
    && Allocatable(EffectiveRequired(range))
    && (range.limitBytes > 0 ==> Rounded(EffectiveRequired(range)) <= range.limitBytes as int)
  }

  lemma SatisfiableRounds(range: CapacityRange, m: int)
    requires Ordered(range) && Fits(range, m)
    ensures RoundsWithin(range)
  {
    SchemaLimitIsMaxAllocatable();
    assert UNIT <= m <= MAX_ALLOCATABLE;
    RoundedIsLeast(EffectiveRequired(range));
    if range.requiredBytes == 0 {
      assert UNIT <= range.limitBytes as int;
      WholeUnitsAreRounded(EffectiveRequired(range));
    }
  }

  lemma WholeUnitsAreRounded(m: int)
    requires m % UNIT == 0
    ensures Rounded(m) == m
  {
  }

  lemma RoundedFits(range: CapacityRange)
    requires Ordered(range) && RoundsWithin(range)
    ensures Fits(range, Rounded(EffectiveRequired(range)))
  {
    RoundedIsLeast(EffectiveRequired(range));
  }

  /** normalizeCapacityRange succeeds exactly on satisfiable ranges, and then allocates the
      least whole number of units covering the effective requirement, within the limit. */
  method NormalizeCapacityRange(range: Option<CapacityRange>) returns (r: Option<(int64, int64)>)
    ensures r.Some? <==> range.None? || Satisfiable(range.value)
    ensures range.None? ==> r == Some((DEFAULT_BYTES as int64, DEFAULT_BYTES as int64))
    ensures range.Some? && r.Some? ==>
              && r.value.0 as int == EffectiveRequired(range.value)
              && LeastUnits(r.value.0 as int, r.value.1 as int)
              && Fits(range.value, r.value.1 as int)
  {
    if range.None? {
      return Some((DEFAULT_BYTES as int64, DEFAULT_BYTES as int64));
    }
    r := NormalizeRange(range.value);
    if r.Some? {
      RoundedFits(range.value);
      RoundedIsLeast(EffectiveRequired(range.value));
    } else if Satisfiable(range.value) {
      var m :| Fits(range.value, m);
      SatisfiableRounds(range.value, m);
    }
  }

  /** The branching part, stated through the rounded effective requirement. */
  method NormalizeRange(range: CapacityRange) returns (r: Option<(int64, int64)>)
    ensures r.Some? <==> Ordered(range) && RoundsWithin(range)
    ensures r.Some? ==> r.value.0 as int == EffectiveRequired(range) && r.value.1 as int == Rounded(EffectiveRequired(range))
  {
    var requiredBytes, limitBytes := range.requiredBytes, range.limitBytes;
    if requiredBytes < 0 || limitBytes < 0 || (requiredBytes == 0 && limitBytes == 0) {
      return None;
    }
    if requiredBytes == 0 {
      requiredBytes := DEFAULT_BYTES as int64;
      if limitBytes < requiredBytes {
        requiredBytes := limitBytes / UNIT as int64 * UNIT as int64;
        if requiredBytes == 0 {
          return None;
        }
      }
    }
    assert requiredBytes as int == EffectiveRequired(range);
    assert requiredBytes as int <= Rounded(requiredBytes as int) by {
      RoundedIsLeast(requiredBytes as int);
    }
    if limitBytes > 0 && requiredBytes > limitBytes {
      return None;
    }
    var allocatedBytes := RoundUp(requiredBytes);
    if allocatedBytes.None? {
      return None;
    }
    if limitBytes > 0 && allocatedBytes.value > limitBytes {
      return None;
    }
    r := Some((requiredBytes, allocatedBytes.value));
  }

  // ---------------------------------------------------------------- advertised capacity

  /** checkedCapacityBytes: the exact product, or an error when it is not an int64. */
  function CheckedCapacityBytes(numBlocks: int64, blockSize: int64): (r: Option<int64>)
    ensures r.Some? <==> numBlocks > 0 && blockSize > 0 && numBlocks as int * blockSize as int <= MAX_INT64
    ensures r.Some? ==> r.value as int == numBlocks as int * blockSize as int
  {
    if numBlocks <= 0 || blockSize <= 0 then None
    else
      ProductFits(numBlocks as int, blockSize as int);
      if numBlocks > MAX_INT64 as int64 / blockSize then None
      else Some(numBlocks * blockSize)
  }

  lemma ProductFits(n: int, b: int)
    requires n > 0 && b > 0
    ensures n <= MAX_INT64 / b <==> n * b <= MAX_INT64
    ensures MAX_INT64 / b >= 0
  {
    var q := MAX_INT64 / b;
    assert q * b <= MAX_INT64 < (q + 1) * b;
    if n <= q {
      assert n * b <= q * b;
    } else {
      assert (q + 1) * b <= n * b;
    }
  }

  /** What a namespace may advertise: 99 percent of its raw bytes, in whole units. */
  function Advertised(raw: int): int {
    raw * 99 / 100 / UNIT * UNIT
  }

  /** The split formula avoids the overflowing product and still equals the exact floor. */
  lemma SplitPercentIsExact(raw: int)
    requires raw >= 0
    ensures raw / 100 * 99 + raw % 100 * 99 / 100 == raw * 99 / 100
  {
    var q, m := raw / 100, raw % 100;
    assert raw * 99 == (q * 99) * 100 + m * 99;
  }

  function AllocatableNamespaceBytes(rawBytes: int64): (r: Option<int64>)
    ensures r.Some? <==> Advertised(rawBytes as int) > 0
    ensures r.Some? ==> r.value as int == Advertised(rawBytes as int) && Allocatable(r.value as int)
    ensures r.Some? ==> (rawBytes as int - r.value as int) * 100 >= rawBytes as int
  {
    if rawBytes <= 0 then None
    else
      SplitPercentIsExact(rawBytes as int);
      var usable := rawBytes / 100 * 99 + rawBytes % 100 * 99 / 100;
      var units := usable / UNIT as int64 * UNIT as int64;
      if units <= 0 then None else Some(units)
  }
}
