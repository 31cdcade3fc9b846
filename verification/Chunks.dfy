/** The chunk arithmetic of my_malloc in csrc/cumem_allocator.cpp (ROCm path),
    in 64-bit unsigned arithmetic with its wrap-around written out. */
module Chunks {
  import opened Options
  import opened Products

  const TWO_64 := 0x1_0000_0000_0000_0000
  const DEFAULT_CHUNK := 256 * MIB

  type U64 = x: int | 0 <= x < TWO_64
  type SSize = x: int | -TWO_64 / 2 <= x < TWO_64 / 2

  function Wrap(x: int): U64 { x % TWO_64 }

  /** The base chunk size: the configured number of megabytes, unless it is
      absent, unreadable, zero or too large to convert. */
  function BaseChunk(configuredMb: Option<U64>): (bytes: U64)
    ensures configuredMb.Some? && 0 < configuredMb.value * 1048576 < TWO_64 ==> bytes == configuredMb.value * 1048576
    ensures !(configuredMb.Some? && 0 < configuredMb.value * 1048576 < TWO_64) ==> bytes == 268435456
    ensures bytes > 0 && bytes % MIB == 0
  {
    match configuredMb
    case None => DEFAULT_CHUNK
    case Some(mb) =>
      if mb == 0 || mb > (TWO_64 - 1) / MIB then DEFAULT_CHUNK else mb * MIB
  }

  ghost predicate Multiple(x: nat, g: nat) {
    exists q: nat :: x == Times(q, g)
  }

  // ---------- rounding up ----------

  /** ((x + g - 1) / g) * g, as computed. */
  function Aligned(x: U64, g: U64): U64
    requires g > 0
  {
    DivTimes(Wrap(x + g - 1), g);
    Times(Wrap(x + g - 1) / g, g)
  }

  lemma AlignedIsMultiple(x: U64, g: U64)
    requires g > 0
    ensures Multiple(Aligned(x, g), g)
  {
  }

  /** Without overflow, aligning is rounding up to the next multiple. */
  lemma AlignedRoundsUp(x: U64, g: U64)
    requires g > 0 && x + g - 1 < TWO_64
    ensures x <= Aligned(x, g) < x + g
  {
    hide Times;
    DivTimes(x + g - 1, g);
  }

  /** An overflow in the sum leaves less than one granule, that is, zero. */
  lemma AlignedOverflows(x: U64, g: U64)
    requires g > 0 && x + g - 1 >= TWO_64
    ensures Aligned(x, g) == 0
  {
    WrapOnce(x + g - 1);
    SmallDiv(x + g - 1 - TWO_64, g);
  }

  lemma AlignedPositive(x: U64, g: U64)
    requires g > 0 && Aligned(x, g) > 0
    ensures x + g - 1 < TWO_64 && x <= Aligned(x, g) < x + g
  {
    hide Times;
    if x + g - 1 < TWO_64 {
      AlignedRoundsUp(x, g);
    } else {
      AlignedOverflows(x, g);
    }
  }

  lemma CeilDiv(s: nat, c: nat)
    requires c > 0
    ensures var n := (s + c - 1) / c; s <= Times(n, c) && (n > 0 ==> Times(n - 1, c) < s)
  {
    hide Times;
    var n := (s + c - 1) / c;
    DivTimes(s + c - 1, c);
    if n > 0 {
      TimesStep(n - 1, c);
    }
  }

  /** Subtracting whole chunks from a multiple leaves a multiple. */
  lemma MultiplesSubtract(s: nat, c: nat, i: nat, g: nat)
    requires g > 0 && Multiple(s, g) && Multiple(c, g) && Times(i, c) <= s
    ensures Multiple(s - Times(i, c), g)
  {
    hide Times;
    var q: nat :| s == Times(q, g);
    var k: nat :| c == Times(k, g);
    TimesAssociates(i, k, g);
    if q < Times(i, k) {
      TimesMonotone(q, Times(i, k), g);
      assert s == Times(i, c);
      TimesStep(0, g);
      assert s - Times(i, c) == Times(0, g);
    } else {
      TimesMinus(Times(i, k), q, g);
    }
  }

  // ---------- the chunks ----------

  ghost function Sum(sizes: seq<nat>): nat {
    if sizes == [] then 0 else Sum(sizes[..|sizes| - 1]) + sizes[|sizes| - 1]
  }

  lemma SumOneMore(sizes: seq<nat>, x: nat)
    ensures Sum(sizes + [x]) == Sum(sizes) + x
  {
    assert (sizes + [x])[..|sizes|] == sizes;
  }

  /** The chunks cover the aligned range exactly: each a positive multiple of the
      granularity, and together the request rounded up. */
  ghost predicate Tiles(sizes: seq<nat>, size: nat, g: nat, total: nat) {
    && size <= total < size + g && Multiple(total, g)
    && Sum(sizes) == total
    && forall i :: 0 <= i < |sizes| ==> sizes[i] > 0 && Multiple(sizes[i], g)
  }

  datatype Plan = DivisionByZero | Planned(total: nat, sizes: seq<nat>)

  /** The planning of my_malloc. It divides by zero exactly when rounding the base
      chunk up overflows; otherwise the chunks tile the request exactly when
      neither of the other two sums overflows. */
  method PlanChunks(requested: SSize, g: U64, base: U64) returns (r: Plan)
    requires g > 0 && base > 0
    ensures r.DivisionByZero? <==> base + g - 1 >= TWO_64
    ensures r.Planned? ==> r.total == Aligned(Wrap(requested), g)
    ensures r.Planned? ==>
      (Tiles(r.sizes, Wrap(requested), g, r.total) <==>
       Wrap(requested) + g - 1 < TWO_64 && r.total + Aligned(base, g) - 1 < TWO_64)
    ensures r.Planned? ==> (Sum(r.sizes) == r.total <==> r.total + Aligned(base, g) - 1 < TWO_64)
    ensures r.Planned? && r.total > 0 ==> (r.sizes == [] <==> r.total + Aligned(base, g) - 1 >= TWO_64)
    ensures r.Planned? ==> forall i :: 0 <= i < |r.sizes| ==> 0 < r.sizes[i] <= Aligned(base, g)
    ensures r.Planned? ==> forall i :: 0 <= i < |r.sizes| - 1 ==> r.sizes[i] == Aligned(base, g)
  {
    hide Times, Aligned, Multiple, Wrap;
    var size := Wrap(requested);
    if base + g - 1 >= TWO_64 {
      AlignedOverflows(base, g);
    } else {
      AlignedRoundsUp(base, g);
    }
    var chunk: nat := Aligned(base, g);
    if chunk == 0 {
      return DivisionByZero;
    }
    var total: nat := Aligned(size, g);
    var n: nat := Wrap(total + chunk - 1) / chunk;
    if size + g - 1 >= TWO_64 {
      AlignedOverflows(size, g);
    } else {
      AlignedRoundsUp(size, g);
    }
    ChunkCount(total, chunk);
    AlignedIsMultiple(size, g);
    AlignedIsMultiple(base, g);
    var sizes := FillSizes(total, chunk, n, g);
    r := Planned(total, sizes);
  }

  /** The size comes as a signed number. For every granularity up to half the
      range, rounding it up overflows exactly for negative sizes that it exceeds
      in magnitude, never for a size that is not negative. */
  lemma SizeOverflowsIff(size: SSize, g: U64)
    requires 0 < g <= TWO_64 / 2
    ensures Wrap(size) + g - 1 >= TWO_64 <==> size < 0 < size + g
  {
    if size < 0 {
      assert Wrap(size) == size + TWO_64;
    }
  }

  /** The largest setting that get_memcreate_chunk_size accepts: with a 2 MiB
      granularity every request divides by zero. */
  method LargestSettingDividesByZero(size: SSize) returns (r: Plan)
    ensures r.DivisionByZero?
  {
    var base := BaseChunk(Some(0xFFF_FFFF_FFFF));
    r := PlanChunks(size, 2 * MIB, base);
  }

  /** One MiB less: a request of 4 MiB gets no chunk at all. */
  method NextSettingPlansNothing() returns (r: Plan)
    ensures r == Planned(4 * MIB, [])
  {
    var base := BaseChunk(Some(0xFFF_FFFF_FFFE));
    assert Aligned(4 * MIB, 2 * MIB) == 4 * MIB;
    r := PlanChunks(4 * MIB, 2 * MIB, base);
  }

  /** A negative size that the granularity exceeds is rounded up to zero. */
  method NegativeSizePlansNothing() returns (r: Plan)
    ensures r.Planned? && r.total == 0 && r.sizes == []
  {
    assert Aligned(Wrap(-1), 2 * MIB) == 0;
    r := PlanChunks(-1, 2 * MIB, DEFAULT_CHUNK);
  }

  lemma ChunkCount(total: U64, chunk: U64)
    requires chunk > 0
    ensures var n: nat := Wrap(total + chunk - 1) / chunk;
            && (n > 0 ==> Times(n - 1, chunk) < total)
            && (total + chunk - 1 < TWO_64 ==> total <= Times(n, chunk))
            && (total + chunk - 1 >= TWO_64 ==> n == 0 && total > 0)
  {
    hide Times, Wrap;
    WrapOnce(total + chunk - 1);
    if total + chunk - 1 >= TWO_64 {
      SmallDiv(total + chunk - 1 - TWO_64, chunk);
    } else {
      CeilDiv(total, chunk);
    }
  }

  lemma WrapOnce(x: nat)
    requires x < 2 * TWO_64
    ensures Wrap(x) == if x < TWO_64 then x else x - TWO_64
  {
  }

  lemma SmallDiv(x: nat, c: nat)
    requires x < c
    ensures x / c == 0
  {
  }

  method FillSizes(total: nat, chunk: nat, n: nat, ghost g: nat) returns (sizes: seq<nat>)
    requires g > 0 && chunk > 0 && Multiple(total, g) && Multiple(chunk, g)
    requires n > 0 ==> Times(n - 1, chunk) < total
    ensures |sizes| == n && Sum(sizes) == Min(Times(n, chunk), total)
    ensures forall i :: 0 <= i < n ==> 0 < sizes[i] <= chunk && Multiple(sizes[i], g)
    ensures forall i :: 0 <= i < n - 1 ==> sizes[i] == chunk
  {
    hide Times, Multiple;
    sizes := [];
    var i: nat := 0;
    TimesStep(0, chunk);
    while i < n
      invariant 0 <= i <= n && |sizes| == i
      invariant Sum(sizes) == Min(Times(i, chunk), total)
      invariant forall k :: 0 <= k < i ==> 0 < sizes[k] <= chunk && Multiple(sizes[k], g)
      invariant forall k :: 0 <= k < i && k < n - 1 ==> sizes[k] == chunk
    {
      TimesMonotone(i, n - 1, chunk);
      TimesMonotone(i + 1, n - 1, chunk);
      MultiplesSubtract(total, chunk, i, g);
      SumOneMore(sizes, Min(total - Times(i, chunk), chunk));
      sizes := sizes + [Min(total - Times(i, chunk), chunk)];
      TimesStep(i, chunk);
      i := i + 1;
    }
  }
}
