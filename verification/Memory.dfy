/**
 How a host's memory is divided among its units: the limits the ALLOCATION_CREATE playbook writes, and
 the `memory_gb` that `get_allocations` shows (kloigos/repos/postgres.py).
 */
module Memory {
  import opened Arithmetic
  import opened Collections
  import opened CpuRange
  import opened ServerSpecs
  import opened Text

  /** Kilobytes in a gigabyte. */
  const GB := 1024 * 1024

  /** `echo $MEM_TOT / $CPU_COUNT | bc`: kilobytes for each CPU. */
  function PerCpu(totalKb: nat, cpuCount: nat): nat
    requires cpuCount > 0
  {
    totalKb / cpuCount
  }

  /** `MemoryHigh`, in whole gigabytes, from the `cpu_set` column. */
  function MemoryHigh(cpuSet: string, perCpu: nat): nat {
    |Split(cpuSet)| * perCpu / GB
  }

  /**
   The playbook multiplies by 0.9 in floating point: the product is nine tenths to within the rounding of
   a double. Dividing by 1024 twice is exact.
   */
  ghost predicate NineTenths(kb: nat, product: real) {
    var off := product - 0.9 * kb as real;
    0.0 <= product && off * 4503599627370496.0 <= kb as real && -off * 4503599627370496.0 <= kb as real
  }

  /** `MemoryMax`, in whole gigabytes, from that product. */
  function MemoryMax(product: real): int {
    (product / GB as real).Floor
  }

  function TotalHigh(units: seq<InitUnit>, perCpu: nat): nat {
    if units == [] then 0 else MemoryHigh(units[0].cpuSet, perCpu) + TotalHigh(units[1..], perCpu)
  }

  lemma DivideBack(n: nat, d: nat)
    requires d > 0
    ensures n / d * d <= n < (n / d + 1) * d
  {
    assert n == d * (n / d) + n % d;
    assert (n / d + 1) * d == n / d * d + d;
  }

  lemma DivideMonotone(m: nat, n: nat, d: nat)
    requires d > 0 && m <= n
    ensures m / d <= n / d
  {
    DivideBack(m, d);
    DivideBack(n, d);
    if m / d > n / d {
      TimesAtMost(n / d + 1, m / d, d);
    }
  }

  lemma FloorOfQuotient(n: nat, product: real)
    requires 0.0 <= product <= n as real
    ensures 0 <= (product / GB as real).Floor <= n / GB
  {
    var whole := (product / GB as real).Floor;
    assert whole as real <= product / GB as real;
    assert whole as real * GB as real <= product;
    assert (whole * GB) as real == whole as real * GB as real;
    assert whole * GB <= n;
    if whole >= 0 {
      DivideMonotone(whole * GB, n, GB);
      DivisionIsUnique(whole * GB, GB, whole, 0);
    }
  }

  /** However the product is rounded, the hard limit of a unit is never above its soft limit. */
  lemma MaxAtMostHigh(cpuSet: string, perCpu: nat, product: real)
    requires NineTenths(|Split(cpuSet)| * perCpu, product)
    ensures 0 <= MemoryMax(product) <= MemoryHigh(cpuSet, perCpu)
  {
    hide Split;
    var n := |Split(cpuSet)| * perCpu;
    assert product <= n as real;
    FloorOfQuotient(n, product);
  }

  lemma {:induction false} HighIsBounded(units: seq<InitUnit>, perCpu: nat)
    requires forall i :: 0 <= i < |units| ==> |Split(units[i].cpuSet)| == units[i].cpuCount
    ensures TotalHigh(units, perCpu) * GB <= TotalCpuCount(units) * perCpu
  {
    hide Split;
    if units != [] {
      HighIsBounded(units[1..], perCpu);
      DivideBack(units[0].cpuCount * perCpu, GB);
      Distribute(units[0].cpuCount, TotalCpuCount(units[1..]), perCpu);
      Distribute(MemoryHigh(units[0].cpuSet, perCpu), TotalHigh(units[1..], perCpu), GB);
    }
  }

  lemma Distribute(a: int, b: int, c: int)
    ensures (a + b) * c == a * c + b * c
  {
  }

  lemma {:induction false} SubsetIsSmaller<T>(s: set<T>, t: set<T>)
    requires s <= t
    ensures |s| <= |t|
  {
    if s != {} {
      var x :| x in s;
      SubsetIsSmaller(s - {x}, t - {x});
    }
  }

  function Below(n: nat): (s: set<int>)
    ensures |s| == n && forall x :: x in s <==> 0 <= x < n
  {
    if n == 0 then {} else Below(n - 1) + {n - 1}
  }

  lemma UnitCountsAreSplits(specs: seq<UnitSpec>)
    requires ValidUnits(specs)
    ensures var units := InitUnits(specs); forall i :: 0 <= i < |units| ==>
             |Split(units[i].cpuSet)| == units[i].cpuCount
  {
    hide CpuIdsForRange, ParseCpuRange, ToCpuSet, Split;
    SortedStaysApart(specs);
  }

  /** The host has every CPU that some unit of the request names. */
  ghost predicate WithinHost(specs: seq<UnitSpec>, cpuCount: nat) {
    forall i, x :: 0 <= i < |specs| && Parses(specs[i]) && x in IdsOf(specs[i]) ==> x < cpuCount
  }

  lemma CountsFitHost(specs: seq<UnitSpec>, cpuCount: nat)
    requires ValidUnits(specs) && WithinHost(specs, cpuCount)
    ensures TotalCpuCount(InitUnits(specs)) <= cpuCount
  {
    hide CpuIdsForRange, CpusOf, InitUnits, SortSpecs, AllApart, StartOf, TotalCpuCount, PairwiseDisjoint;
    InitUnitsPartition(specs);
    var units, sorted := InitUnits(specs), SortSpecs(specs);
    assert |sorted| == |multiset(sorted)| == |multiset(specs)| == |specs|;
    forall x | x in Union(CpuSets(units)) ensures 0 <= x < cpuCount {
      var i :| 0 <= i < |units| && x in CpuSets(units)[i];
      assert sorted[i] in multiset(specs);
      var j :| 0 <= j < |specs| && specs[j] == sorted[i];
      InitUnitOfFacts(specs[j]);
    }
    SubsetIsSmaller(Union(CpuSets(units)), Below(cpuCount));
  }

  /**
   No overcommitment: for every valid request that stays within the host's CPUs, the soft limits of all
   its units together never exceed the host's memory.
   */
  lemma SoftLimitsFitHost(specs: seq<UnitSpec>, totalKb: nat, cpuCount: nat)
    requires ValidUnits(specs) && cpuCount > 0 && WithinHost(specs, cpuCount)
    ensures TotalHigh(InitUnits(specs), PerCpu(totalKb, cpuCount)) * GB <= totalKb
  {
    hide ValidUnits, TotalHigh, TotalCpuCount, WithinHost, InitUnits, Split, AllApart;
    assert AllApart(specs) by {
      Unfold(specs);
    }
    var units, perCpu := InitUnits(specs), PerCpu(totalKb, cpuCount);
    UnitCountsAreSplits(specs);
    HighIsBounded(units, perCpu);
    CountsFitHost(specs, cpuCount);
    DivideBack(totalKb, cpuCount);
    TimesAtMost(TotalCpuCount(units), cpuCount, perCpu);
  }

  lemma Unfold(specs: seq<UnitSpec>)
    requires ValidUnits(specs)
    ensures AllApart(specs)
  {
  }

  lemma TimesAtMost(a: nat, b: nat, c: nat)
    requires a <= b
    ensures a * c <= c * b
  {
    assert c * b == a * c + (b - a) * c;
  }

  // ---- And nothing much is lost ----

  /**
   A unit's soft limit against its exact share: with n of the host's N CPUs it never exceeds n / N of the
   memory, and one gigabyte more would exceed n / N of what the division by N leaves.
   */
  lemma HighIsTheShare(cpuSet: string, totalKb: nat, cpuCount: nat)
    requires cpuCount > 0
    ensures var n, high := |Split(cpuSet)|, MemoryHigh(cpuSet, PerCpu(totalKb, cpuCount));
            && high * GB * cpuCount <= n * totalKb
            && (high + 1) * GB * cpuCount > n * (totalKb - cpuCount + 1)
  {
    hide Split;
    var n, perCpu := |Split(cpuSet)|, PerCpu(totalKb, cpuCount);
    var high := MemoryHigh(cpuSet, perCpu);
    DivideBack(n * perCpu, GB);
    PerCpuTimes(n, totalKb, cpuCount);
    TimesAtMost(high * GB, n * perCpu, cpuCount);
    TimesLess(n * perCpu, (high + 1) * GB, cpuCount);
  }

  lemma PerCpuTimes(n: nat, totalKb: nat, cpuCount: nat)
    requires cpuCount > 0
    ensures n * (totalKb - cpuCount + 1) <= n * PerCpu(totalKb, cpuCount) * cpuCount <= n * totalKb
  {
    var perCpu := PerCpu(totalKb, cpuCount);
    DivideBack(totalKb, cpuCount);
    assert (perCpu + 1) * cpuCount == perCpu * cpuCount + cpuCount;
    ScaledOrder(totalKb - cpuCount + 1, perCpu * cpuCount, n);
    ScaledOrder(perCpu * cpuCount, totalKb, n);
    assert n * perCpu * cpuCount == n * (perCpu * cpuCount);
  }

  lemma ScaledOrder(a: int, b: int, n: nat)
    requires a <= b
    ensures n * a <= n * b
  {
    assert n * b - n * a == n * (b - a);
  }

  /**
   The hard limit against nine tenths of the share: a gigabyte more would exceed nine tenths of what the
   division leaves, but for the rounding of the product.
   */
  lemma MaxIsNineTenths(cpuSet: string, totalKb: nat, cpuCount: nat, product: real)
    requires cpuCount > 0 && NineTenths(|Split(cpuSet)| * PerCpu(totalKb, cpuCount), product)
    ensures var n, max := |Split(cpuSet)|, MemoryMax(product);
            var rounding := 1.0 / 4503599627370496.0;
            && (max * GB * cpuCount) as real <= (0.9 + rounding) * (n * totalKb) as real
            && ((max + 1) * GB * cpuCount) as real > (0.9 - rounding) * (n * (totalKb - cpuCount + 1)) as real
  {
    hide Split, PerCpu, MemoryMax;
    var n := |Split(cpuSet)|;
    var kb := n * PerCpu(totalKb, cpuCount);
    PerCpuTimes(n, totalKb, cpuCount);
    FloorTimes(product, cpuCount);
    var rounding := 1.0 / 4503599627370496.0;
    ProductTimes(kb, product, cpuCount, n * (totalKb - cpuCount + 1), n * totalKb, 0.9 - rounding, 0.9 + rounding);
  }

  lemma FloorTimes(product: real, c: nat)
    requires c > 0
    ensures var max := MemoryMax(product);
            (max * GB * c) as real <= product * c as real < ((max + 1) * GB * c) as real
  {
    var max := MemoryMax(product);
    assert max as real <= product / GB as real < (max + 1) as real;
    assert (max * GB) as real <= product < ((max + 1) * GB) as real;
    WithinTimes(max * GB, product, (max + 1) * GB, c);
  }

  lemma WithinTimes(low: int, x: real, high: int, c: nat)
    requires c > 0 && low as real <= x < high as real
    ensures (low * c) as real <= x * c as real < (high * c) as real
  {
    TimesReal(low as real, x, c as real);
    TimesReal(x, high as real, c as real);
    ProductAsReal(low, c);
    ProductAsReal(high, c);
  }

  lemma ProductAsReal(a: int, b: int)
    ensures (a * b) as real == a as real * b as real
  {
  }

  lemma ProductTimes(kb: nat, product: real, c: nat, low: int, high: int, least: real, most: real)
    requires c > 0 && low <= kb * c <= high && least > 0.0 && most > 0.0
    requires least * kb as real <= product <= most * kb as real
    ensures least * low as real <= product * c as real <= most * high as real
  {
    ProductAsReal(kb, c);
    TimesReal(product, most * kb as real, c as real);
    TimesReal(least * kb as real, product, c as real);
    Reorder(least, kb as real, c as real);
    Reorder(most, kb as real, c as real);
    TimesReal((kb * c) as real, high as real, most);
    TimesReal(low as real, (kb * c) as real, least);
  }

  lemma Reorder(x: real, y: real, z: real)
    ensures x * y * z == y * z * x
  {
  }

  lemma TimesReal(a: real, b: real, c: real)
    requires c > 0.0
    ensures a <= b ==> a * c <= b * c
    ensures a < b ==> a * c < b * c
  {
  }

  lemma {:induction false} HighsAddUp(units: seq<InitUnit>, totalKb: nat, cpuCount: nat)
    requires cpuCount > 0
    requires forall i :: 0 <= i < |units| ==> |Split(units[i].cpuSet)| == units[i].cpuCount
    ensures (TotalHigh(units, PerCpu(totalKb, cpuCount)) + |units|) * GB * cpuCount
         >= TotalCpuCount(units) * (totalKb - cpuCount + 1)
  {
    hide Split, MemoryHigh, PerCpu;
    if units != [] {
      var first, rest := MemoryHigh(units[0].cpuSet, PerCpu(totalKb, cpuCount)), units[1..];
      HighsAddUp(rest, totalKb, cpuCount);
      HighIsTheShare(units[0].cpuSet, totalKb, cpuCount);
      var others := TotalHigh(rest, PerCpu(totalKb, cpuCount)) + |rest|;
      Distribute(units[0].cpuCount, TotalCpuCount(rest), totalKb - cpuCount + 1);
      Distribute(first + 1, others, GB);
      Distribute((first + 1) * GB, others * GB, cpuCount);
    }
  }

  /** If the units take up every CPU, then all the memory goes to them, but less than a gigabyte each. */
  lemma SoftLimitsUseHost(specs: seq<UnitSpec>, totalKb: nat, cpuCount: nat)
    requires ValidUnits(specs) && cpuCount > 0 && TotalCpuCount(InitUnits(specs)) == cpuCount
    ensures var units := InitUnits(specs);
            (TotalHigh(units, PerCpu(totalKb, cpuCount)) + |units|) * GB >= totalKb - cpuCount + 1
  {
    hide ValidUnits, TotalHigh, TotalCpuCount, InitUnits, Split, PerCpu, AllApart;
    assert AllApart(specs) by {
      Unfold(specs);
    }
    var units := InitUnits(specs);
    UnitCountsAreSplits(specs);
    HighsAddUp(units, totalKb, cpuCount);
    var all := (TotalHigh(units, PerCpu(totalKb, cpuCount)) + |units|) * GB;
    if all < totalKb - cpuCount + 1 {
      TimesLess(all, totalKb - cpuCount + 1, cpuCount);
    }
  }

  // ---- The displayed memory ----

  /** `round(mem_gb * cpu_count / server_cpu_count, 1)` in tenths of a gigabyte; halves go up. */
  function ShownTenths(memGb: nat, unitCpus: nat, serverCpus: nat): nat
    requires serverCpus > 0
  {
    (20 * memGb * unitCpus + serverCpus) / (2 * serverCpus)
  }

  function Sum(xs: seq<nat>): nat {
    if xs == [] then 0 else xs[0] + Sum(xs[1..])
  }

  function TotalShown(memGb: nat, counts: seq<nat>, serverCpus: nat): nat
    requires serverCpus > 0
  {
    if counts == [] then 0 else ShownTenths(memGb, counts[0], serverCpus) + TotalShown(memGb, counts[1..], serverCpus)
  }

  /** One displayed value is within 0.05 of the exact share. */
  lemma ShownIsClose(memGb: nat, unitCpus: nat, serverCpus: nat)
    requires serverCpus > 0
    ensures var off := 2 * ShownTenths(memGb, unitCpus, serverCpus) * serverCpus - 20 * memGb * unitCpus;
            0 < off + serverCpus && off <= serverCpus
  {
    var shown := ShownTenths(memGb, unitCpus, serverCpus);
    DivideBack(20 * memGb * unitCpus + serverCpus, 2 * serverCpus);
    assert shown * (2 * serverCpus) == 2 * shown * serverCpus;
    assert (shown + 1) * (2 * serverCpus) == 2 * shown * serverCpus + 2 * serverCpus;
  }

  /** The values shown for k units add up to their exact share to within 0.05 k. */
  lemma {:induction false} ShownSumIsClose(memGb: nat, counts: seq<nat>, serverCpus: nat)
    requires serverCpus > 0
    ensures var off := 2 * TotalShown(memGb, counts, serverCpus) * serverCpus - 20 * memGb * Sum(counts);
            0 <= off + |counts| * serverCpus && off <= |counts| * serverCpus
  {
    hide ShownTenths;
    if counts != [] {
      var rest := counts[1..];
      ShownSumIsClose(memGb, rest, serverCpus);
      ShownIsClose(memGb, counts[0], serverCpus);
      OffsAddUp(ShownTenths(memGb, counts[0], serverCpus), TotalShown(memGb, rest, serverCpus), memGb, counts[0],
          Sum(rest),
                serverCpus, |rest|);
    }
  }

  lemma OffsAddUp(first: int, others: int, memGb: int, count: int, counts: int, serverCpus: int, n: int)
    requires var off := 2 * first * serverCpus - 20 * memGb * count; 0 <= off + serverCpus && off <= serverCpus
    requires var off := 2 * others * serverCpus - 20 * memGb * counts;
             0 <= off + n * serverCpus && off <= n * serverCpus
    ensures var off := 2 * (first + others) * serverCpus - 20 * memGb * (count + counts);
            0 <= off + (n + 1) * serverCpus && off <= (n + 1) * serverCpus
  {
    Distribute(2 * first, 2 * others, serverCpus);
    Distribute(count, counts, 20 * memGb);
    Distribute(n, 1, serverCpus);
  }

  /** Units that share the host's CPUs never show more than its memory and 0.05 for each of them. */
  lemma ShownFitsHost(memGb: nat, counts: seq<nat>, serverCpus: nat)
    requires serverCpus > 0 && Sum(counts) <= serverCpus
    ensures 2 * TotalShown(memGb, counts, serverCpus) <= 20 * memGb + |counts|
  {
    hide TotalShown, Sum;
    ShownSumIsClose(memGb, counts, serverCpus);
    AtMostWhole(TotalShown(memGb, counts, serverCpus), memGb, Sum(counts), serverCpus, |counts|);
  }

  lemma AtMostWhole(shown: nat, memGb: nat, count: nat, serverCpus: nat, n: nat)
    requires serverCpus > 0 && count <= serverCpus
    requires 2 * shown * serverCpus - 20 * memGb * count <= n * serverCpus
    ensures 2 * shown <= 20 * memGb + n
  {
    TimesAtMost(count, serverCpus, 20 * memGb);
    Distribute(20 * memGb, n, serverCpus);
    if 2 * shown > 20 * memGb + n {
      TimesLess(20 * memGb + n, 2 * shown, serverCpus);
    }
  }

  lemma TimesLess(a: int, b: int, c: nat)
    requires a < b && c > 0
    ensures a * c < b * c
  {
    Distribute(a, b - a, c);
    MultipleAtLeast(b - a, c);
  }
}
