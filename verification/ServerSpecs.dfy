/**
 The compute units of a server-init request: how the API validates them (kloigos/models.py) and how
 the worker turns them into rows (kloigos/workers/remote/server.py).
 */
module ServerSpecs {
  import opened Collections
  import opened CpuRange
  import opened Text

  /** `Field(gt=0)`. */
  type Ordinal = n: nat | n > 0 witness 1

  datatype UnitSpec = UnitSpec(ordinal: Ordinal, cpuRange: string)

  datatype InitUnit = InitUnit(ordinal: Ordinal, cpuRange: string, cpuSet: string, cpuCount: nat)

  datatype Verdict = Accepted | NoUnits | RepeatedOrdinal | BadRange(error: RangeError) | Overlap

  predicate Parses(spec: UnitSpec) {
    CpuIdsForRange(spec.cpuRange).Ok?
  }

  function IdsOf(spec: UnitSpec): set<int>
    requires Parses(spec)
  {
    CpuIdsForRange(spec.cpuRange).value
  }

  /** Two specs may stand in one request. */
  predicate Apart(x: UnitSpec, y: UnitSpec) {
    && Parses(x) && Parses(y)
    && x.ordinal != y.ordinal
    && IdsOf(x) !! IdsOf(y)
  }

  /** The first n specs parse and are pairwise apart. */
  predicate FirstApart(specs: seq<UnitSpec>, n: nat)
    requires n <= |specs|
  {
    && (forall i :: 0 <= i < n ==> Parses(specs[i]))
    && (forall i, j :: 0 <= i < j < n ==> Apart(specs[i], specs[j]))
  }

  predicate AllApart(specs: seq<UnitSpec>) {
    FirstApart(specs, |specs|)
  }

  /** What a valid request is, with no reference to how the validator looks for faults. */
  predicate ValidUnits(specs: seq<UnitSpec>) {
    specs != [] && AllApart(specs)
  }

  function Ordinals(specs: seq<UnitSpec>): (r: seq<Ordinal>)
    ensures |r| == |specs| && forall i :: 0 <= i < |r| ==> r[i] == specs[i].ordinal
  {
    seq(|specs|, i requires 0 <= i < |specs| => specs[i].ordinal)
  }

  /** `validate_compute_units`: the set of CPUs seen so far detects every overlap. */
  method ValidateComputeUnits(specs: seq<UnitSpec>) returns (verdict: Verdict)
    ensures verdict == Accepted <==> ValidUnits(specs)
    ensures verdict == NoUnits <==> specs == []
    ensures verdict == RepeatedOrdinal <==> specs != [] && !NoRepeats(Ordinals(specs))
    ensures verdict.BadRange? ==>
              exists k :: 0 <= k < |specs| && FirstApart(specs, k)
                          && CpuIdsForRange(specs[k].cpuRange) == Err(verdict.error)
    ensures verdict == Overlap ==>
              exists k :: 0 <= k < |specs| && FirstApart(specs, k) && Parses(specs[k]) && !FirstApart(specs, k + 1)
  {
    hide CpuIdsForRange;
    if specs == [] {
      return NoUnits;
    }
    var ordinals := Ordinals(specs);
    ToSetSize(ordinals);
    hide ToSet;
    if |ToSet(ordinals)| != |ordinals| {
      return RepeatedOrdinal;
    }
    assert forall i, j :: 0 <= i < j < |specs| ==> specs[i].ordinal != specs[j].ordinal;
    hide Ordinals, NoRepeats;
    var seenCpus: set<int> := {};
    for k := 0 to |specs|
      invariant FirstApart(specs, k)
      invariant forall i :: 0 <= i < k ==> IdsOf(specs[i]) <= seenCpus
      invariant forall x :: x in seenCpus ==> exists i :: 0 <= i < k && x in IdsOf(specs[i])
    {
      var cpuIds := CpuIdsForRange(specs[k].cpuRange);
      if cpuIds.Err? {
        return BadRange(cpuIds.error);
      }
      var ids: set<int> := cpuIds.value;
      if exists x :: x in seenCpus && x in ids {
        ghost var x :| x in seenCpus && x in ids;
        ghost var i :| 0 <= i < k && x in IdsOf(specs[i]);
        assert !Apart(specs[i], specs[k]);
        assert !FirstApart(specs, k + 1);
        return Overlap;
      }
      assert forall i :: 0 <= i < k ==> Apart(specs[i], specs[k]);
      seenCpus := seenCpus + ids;
    }
    return Accepted;
  }

  // ---- The worker's list ----

  /** `parse_cpu_range(cpu_range)[0]`, the first sort key. */
  function StartOf(spec: UnitSpec): int {
    var b := ParseCpuRange(spec.cpuRange);
    if b.Ok? then b.value.start else 0
  }

  predicate KeyLeq(x: UnitSpec, y: UnitSpec) {
    StartOf(x) < StartOf(y) || (StartOf(x) == StartOf(y) && x.ordinal <= y.ordinal)
  }

  function Insert(x: UnitSpec, sorted: seq<UnitSpec>): seq<UnitSpec> {
    if sorted == [] || KeyLeq(x, sorted[0]) then [x] + sorted
    else [sorted[0]] + Insert(x, sorted[1..])
  }

  /** `sorted(compute_units, key=(start, ordinal))`. */
  function SortSpecs(specs: seq<UnitSpec>): seq<UnitSpec> {
    if specs == [] then [] else Insert(specs[0], SortSpecs(specs[1..]))
  }

  function InitUnitOf(spec: UnitSpec): InitUnit
    requires Parses(spec)
  {
    ParsersAgree(spec.cpuRange);
    var cpuSet := ToCpuSet(spec.cpuRange).value;
    InitUnit(spec.ordinal, spec.cpuRange, cpuSet, |Split(cpuSet)|)
  }

  function MapUnits(specs: seq<UnitSpec>): (units: seq<InitUnit>)
    requires forall i :: 0 <= i < |specs| ==> Parses(specs[i])
    ensures |units| == |specs|
    ensures forall i :: 0 <= i < |specs| ==> units[i] == InitUnitOf(specs[i])
  {
    seq(|specs|, i requires 0 <= i < |specs| => InitUnitOf(specs[i]))
  }

  /** The worker's unit list of a valid request. */
  function InitUnits(specs: seq<UnitSpec>): seq<InitUnit>
    requires AllApart(specs)
  {
    SortedStaysApart(specs);
    MapUnits(SortSpecs(specs))
  }

  /** `_init_compute_units`. */
  method InitComputeUnits(specs: seq<UnitSpec>) returns (units: seq<InitUnit>)
    requires ValidUnits(specs)
    ensures units == InitUnits(specs)
  {
    hide CpuIdsForRange, ParseCpuRange, RangeList, Split, SortSpecs;
    SortedStaysApart(specs);
    units := [];
    var sorted := SortSpecs(specs);
    for k := 0 to |sorted|
      invariant |units| == k
      invariant forall i :: 0 <= i < k ==> units[i] == InitUnitOf(sorted[i])
    {
      ParsersAgree(sorted[k].cpuRange);
      var cpuSet := ToCpuSet(sorted[k].cpuRange).value;
      units := units + [InitUnit(sorted[k].ordinal, sorted[k].cpuRange, cpuSet, |Split(cpuSet)|)];
    }
  }

  predicate Sorted(specs: seq<UnitSpec>) {
    forall i, j :: 0 <= i < j < |specs| ==> KeyLeq(specs[i], specs[j])
  }

  lemma {:induction false} InsertMultiset(x: UnitSpec, sorted: seq<UnitSpec>)
    ensures multiset(Insert(x, sorted)) == multiset(sorted) + multiset{x}
  {
    hide KeyLeq;
    if sorted != [] && !KeyLeq(x, sorted[0]) {
      InsertMultiset(x, sorted[1..]);
      assert sorted == [sorted[0]] + sorted[1..];
    }
  }

  lemma {:induction false} InsertStaysSorted(x: UnitSpec, sorted: seq<UnitSpec>)
    requires Sorted(sorted)
    ensures Sorted(Insert(x, sorted))
  {
    hide StartOf;
    if sorted == [] {
    } else if KeyLeq(x, sorted[0]) {
      forall j | 0 <= j < |sorted| ensures KeyLeq(x, sorted[j]) {
        assert j > 0 ==> KeyLeq(sorted[0], sorted[j]);
      }
    } else {
      var rest := Insert(x, sorted[1..]);
      InsertStaysSorted(x, sorted[1..]);
      InsertMembers(x, sorted[1..]);
      forall j | 0 <= j < |rest| ensures KeyLeq(sorted[0], rest[j]) {
        assert rest[j] in rest;
      }
    }
  }

  lemma {:induction false} InsertMembers(x: UnitSpec, sorted: seq<UnitSpec>)
    ensures forall y :: y in Insert(x, sorted) <==> y == x || y in sorted
  {
    hide KeyLeq;
    if sorted != [] && !KeyLeq(x, sorted[0]) {
      InsertMembers(x, sorted[1..]);
    }
  }

  lemma {:induction false} InsertStaysApart(x: UnitSpec, sorted: seq<UnitSpec>)
    requires AllApart(sorted) && Parses(x) && forall y :: y in sorted ==> Apart(x, y)
    ensures AllApart(Insert(x, sorted))
  {
    hide CpuIdsForRange, KeyLeq;
    if sorted != [] && !KeyLeq(x, sorted[0]) {
      var rest := Insert(x, sorted[1..]);
      InsertStaysApart(x, sorted[1..]);
      InsertMembers(x, sorted[1..]);
      forall i | 0 <= i < |rest| ensures Apart(sorted[0], rest[i]) {
        assert rest[i] in rest;
        assert Apart(x, sorted[0]);
      }
    }
  }

  lemma {:induction false} SortedStaysApart(specs: seq<UnitSpec>)
    ensures multiset(SortSpecs(specs)) == multiset(specs)
    ensures Sorted(SortSpecs(specs))
    ensures AllApart(specs) ==> AllApart(SortSpecs(specs))
  {
    hide CpuIdsForRange, KeyLeq, Insert, Apart, Parses;
    if specs != [] {
      var tail := SortSpecs(specs[1..]);
      SortedStaysApart(specs[1..]);
      InsertMultiset(specs[0], tail);
      InsertStaysSorted(specs[0], tail);
      assert specs == [specs[0]] + specs[1..];
      if AllApart(specs) {
        forall y | y in tail ensures Apart(specs[0], y) {
          assert y in multiset(tail) && y in specs[1..];
        }
        InsertStaysApart(specs[0], tail);
      }
    }
  }

  function CpuSets(units: seq<InitUnit>): (sets: seq<set<int>>)
    ensures |sets| == |units| && forall i :: 0 <= i < |units| ==> sets[i] == CpusOf(units[i].cpuSet)
  {
    seq(|units|, i requires 0 <= i < |units| => CpusOf(units[i].cpuSet))
  }

  function TotalCpuCount(units: seq<InitUnit>): nat {
    if units == [] then 0 else units[0].cpuCount + TotalCpuCount(units[1..])
  }

  lemma {:induction false} TotalIsSumOfSizes(units: seq<InitUnit>)
    requires forall i :: 0 <= i < |units| ==> units[i].cpuCount == |CpusOf(units[i].cpuSet)|
    ensures TotalCpuCount(units) == SumOfSizes(CpuSets(units))
  {
    if units != [] {
      TotalIsSumOfSizes(units[1..]);
      assert CpuSets(units)[1..] == CpuSets(units[1..]);
    }
  }

  lemma InitUnitOfFacts(spec: UnitSpec)
    requires Parses(spec)
    ensures var u := InitUnitOf(spec);
            && CpusOf(u.cpuSet) == IdsOf(spec)
            && u.cpuCount == |CpusOf(u.cpuSet)|
            && StartOf(spec) in IdsOf(spec)
            && forall x :: x in IdsOf(spec) ==> 0 <= StartOf(spec) <= x
  {
    CpuSetRoundTrip(spec.cpuRange);
  }

  /**
   The worker's list of a valid request is a rearrangement of the request in which CPU sets are
   pairwise disjoint, first CPUs strictly increase, each `cpu_count` is the size of its CPU set, and
   the counts add up to the number of CPUs covered.
   */
  lemma InitUnitsPartition(specs: seq<UnitSpec>)
    requires ValidUnits(specs)
    ensures var units := InitUnits(specs);
            var sorted := SortSpecs(specs);
            && multiset(sorted) == multiset(specs) && |units| == |specs|
            && (forall i :: 0 <= i < |units| ==>
                  && units[i].ordinal == sorted[i].ordinal && units[i].cpuRange == sorted[i].cpuRange
                    && Parses(sorted[i])
                  && CpusOf(units[i].cpuSet) == IdsOf(sorted[i])
                  && units[i].cpuCount == |CpusOf(units[i].cpuSet)|)
            && (forall i, j :: 0 <= i < j < |units| ==> StartOf(sorted[i]) < StartOf(sorted[j]))
            && (forall i, j :: 0 <= i < j < |units| ==> units[i].ordinal != units[j].ordinal)
            && PairwiseDisjoint(CpuSets(units))
            && TotalCpuCount(units) == |Union(CpuSets(units))|
  {
    hide CpuIdsForRange, ParseCpuRange, ToCpuSet, CpusOf;
    var units, sorted := InitUnits(specs), SortSpecs(specs);
    SortedStaysApart(specs);
    assert |sorted| == |multiset(sorted)| == |multiset(specs)| == |specs|;
    forall i | 0 <= i < |units|
      ensures units[i] == InitUnitOf(sorted[i]) && CpusOf(units[i].cpuSet) == IdsOf(sorted[i])
      ensures units[i].cpuCount == |CpusOf(units[i].cpuSet)| && StartOf(sorted[i]) in IdsOf(sorted[i])
    {
      InitUnitOfFacts(sorted[i]);
    }
    forall i, j | 0 <= i < j < |units|
      ensures StartOf(sorted[i]) < StartOf(sorted[j]) && units[i].ordinal != units[j].ordinal
      ensures CpuSets(units)[i] !! CpuSets(units)[j]
    {
      assert Apart(sorted[i], sorted[j]) && KeyLeq(sorted[i], sorted[j]);
    }
    DisjointSizesAdd(CpuSets(units));
    TotalIsSumOfSizes(units);
  }
}
