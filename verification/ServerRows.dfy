/**
 The unit rows a server-init job adds to a host that has none, counted exactly, and why running the
 same request again changes none of them.
 */
module ServerRows {
  import opened Administration
  import opened Collections
  import opened ComputeIds
  import opened CpuRange
  import opened JsRange
  import opened Protocol
  import opened Repository
  import opened ServerSpecs
  import opened Tables
  import opened Workers

  function IdList(hostname: string, units: seq<InitUnit>): (ids: seq<string>)
    ensures |ids| == |units| && forall i :: 0 <= i < |ids| ==> ids[i] == ComputeId(hostname, units[i].ordinal)
  {
    seq(|units|, i requires 0 <= i < |units| => ComputeId(hostname, units[i].ordinal))
  }

  /** No two ordinals of the request start with the same two digits, as those below 100 never do. */
  predicate LeadingsDiffer(specs: seq<UnitSpec>) {
    forall i, j :: 0 <= i < |specs| && 0 <= j < |specs| && Leading(specs[i].ordinal) == Leading(specs[j].ordinal)
                   ==> specs[i].ordinal == specs[j].ordinal
  }

  /** Since ids are generated, a taken (hostname, ordinal) slot shows as a taken id. */
  lemma NewUnitById(d: Database, row: ComputeUnit)
    requires d.IdsGenerated()
    ensures var id := ComputeId(row.hostname, row.ordinal);
            d.WithNewUnit(row) == if id in d.units then d else d.(units := d.units[id := row])
    ensures d.WithNewUnit(row).IdsGenerated()
  {
    hide ComputeId;
  }

  predicate FirstOfItsKind(ids: seq<string>, i: nat)
    requires i < |ids|
  {
    forall j :: 0 <= j < i ==> ids[j] != ids[i]
  }

  /** e is d with the rows of the list: the old ids and the new ones, and for each new id the first row. */
  ghost predicate RowsAdded(d: Database, e: Database, hostname: string, units: seq<InitUnit>) {
    var ids := IdList(hostname, units);
    && e == d.(units := e.units) && e.IdsGenerated()
    && e.units.Keys == d.units.Keys + ToSet(ids)
    && (forall c :: c in d.units ==> c in e.units && e.units[c] == d.units[c])
    && (forall i :: 0 <= i < |ids| && ids[i] !in d.units && FirstOfItsKind(ids, i)
                    ==> ids[i] in e.units && e.units[ids[i]] == UnitRow(hostname, units[i]))
  }

  lemma OneRowAdded(d: Database, e: Database, hostname: string, units: seq<InitUnit>, unit: InitUnit)
    requires RowsAdded(d, e, hostname, units)
    ensures RowsAdded(d, e.WithNewUnit(UnitRow(hostname, unit)), hostname, units + [unit])
  {
    hide ComputeId, ToSet, Database.WithNewUnit, Database.IdsGenerated;
    NewUnitById(e, UnitRow(hostname, unit));
    var f := e.WithNewUnit(UnitRow(hostname, unit));
    var id := ComputeId(hostname, unit.ordinal);
    var ids := IdList(hostname, units);
    assert IdList(hostname, units + [unit]) == ids + [id];
    ToSetOfSnoc(ids, id);
    assert id in e.units <==> id in d.units || id in ids;
    RowsStay(d, e, f, hostname, units, unit);
  }

  lemma RowsStay(d: Database, e: Database, f: Database, hostname: string, units: seq<InitUnit>, unit: InitUnit)
    requires RowsAdded(d, e, hostname, units)
    requires var id := ComputeId(hostname, unit.ordinal);
             f == if id in e.units then e else e.(units := e.units[id := UnitRow(hostname, unit)])
    ensures var ids := IdList(hostname, units + [unit]);
            forall i :: 0 <= i < |ids| && ids[i] !in d.units && FirstOfItsKind(ids, i)
                        ==> ids[i] in f.units && f.units[ids[i]] == UnitRow(hostname, (units + [unit])[i])
  {
    hide ComputeId, ToSet, Database.WithNewUnit, Database.IdsGenerated;
    var ids, all := IdList(hostname, units), IdList(hostname, units + [unit]);
    assert all == ids + [all[|units|]];
    ToSetOfSnoc(ids, all[|units|]);
    forall i | 0 <= i < |all| && all[i] !in d.units && FirstOfItsKind(all, i)
      ensures all[i] in f.units && f.units[all[i]] == UnitRow(hostname, (units + [unit])[i])
    {
      if i < |units| {
        assert FirstOfItsKind(ids, i) by {
          assert forall j :: 0 <= j <= i ==> ids[j] == all[j];
        }
      } else {
        assert all[i] !in ids by {
          assert forall j :: 0 <= j < i ==> ids[j] == all[j];
        }
      }
    }
  }

  lemma ToSetOfSnoc<T>(xs: seq<T>, x: T)
    ensures ToSet(xs + [x]) == ToSet(xs) + {x}
    ensures forall y :: y in ToSet(xs) <==> y in xs
  {
  }

  lemma NoRowsAdded(d: Database, hostname: string)
    requires d.IdsGenerated()
    ensures RowsAdded(d, d, hostname, [])
  {
    hide ComputeId;
  }

  lemma AddedKeepServers(d: Database, e: Database, hostname: string, units: seq<InitUnit>)
    requires RowsAdded(d, e, hostname, units)
    ensures e.servers == d.servers
  {
    hide ComputeId;
  }

  lemma {:induction false} InsertedRows(d: Database, hostname: string, units: seq<InitUnit>)
    requires d.IdsGenerated() && hostname in d.servers
    ensures var p := InsertedUnits(d, hostname, units); !p.raised && RowsAdded(d, p.db, hostname, units)
  {
    hide ComputeId, Database.WithNewUnit, Database.IdsGenerated, RowsAdded;
    if units == [] {
      NoRowsAdded(d, hostname);
    } else {
      var init, last := units[..|units| - 1], units[|units| - 1];
      InsertedRows(d, hostname, init);
      AddedKeepServers(d, InsertedUnits(d, hostname, init).db, hostname, init);
      OneRowAdded(d, InsertedUnits(d, hostname, init).db, hostname, init, last);
      assert init + [last] == units;
    }
  }

  lemma SortedOrdinals(specs: seq<UnitSpec>)
    requires ValidUnits(specs)
    ensures var units, sorted := InitUnits(specs), SortSpecs(specs);
            && |units| == |sorted| == |specs| && multiset(sorted) == multiset(specs)
            && (forall i :: 0 <= i < |units| ==> units[i].ordinal == sorted[i].ordinal)
            && (forall i, j :: 0 <= i < j < |units| ==> units[i].ordinal != units[j].ordinal)
  {
    hide AllApart, PairwiseDisjoint, CpuSets, InitUnits, TotalCpuCount, SortSpecs, StartOf, CpuRange.CpusOf, IdsOf,
         Parses, Union;
    InitUnitsPartition(specs);
    assert |SortSpecs(specs)| == |multiset(SortSpecs(specs))| == |multiset(specs)| == |specs|;
  }

  lemma IdsRepeatIffLeadingsDo(hostname: string, specs: seq<UnitSpec>)
    requires ValidUnits(specs)
    ensures NoRepeats(IdList(hostname, InitUnits(specs))) <==> LeadingsDiffer(specs)
  {
    hide AllApart, InitUnits, ComputeId, Leading, SortSpecs, LeadingsDiffer, NoRepeats;
    SortedOrdinals(specs);
    var units, sorted := InitUnits(specs), SortSpecs(specs);
    var ids := IdList(hostname, units);
    forall i, j | 0 <= i < |units| && 0 <= j < |units|
      ensures ids[i] == ids[j] <==> Leading(sorted[i].ordinal) == Leading(sorted[j].ordinal)
    {
      ComputeIdCollision(hostname, units[i].ordinal, hostname, units[j].ordinal);
    }
    SameLeadings(specs, sorted);
    LeadingsOfDistinct(sorted, ids);
  }

  lemma SameLeadings(specs: seq<UnitSpec>, sorted: seq<UnitSpec>)
    requires multiset(specs) == multiset(sorted)
    ensures LeadingsDiffer(specs) <==> LeadingsDiffer(sorted)
  {
    hide Leading;
    SameMembers(specs, sorted);
  }

  lemma LeadingsOfDistinct(sorted: seq<UnitSpec>, ids: seq<string>)
    requires |ids| == |sorted|
    requires forall i, j :: 0 <= i < j < |sorted| ==> sorted[i].ordinal != sorted[j].ordinal
    requires forall i, j :: 0 <= i < |ids| && 0 <= j < |ids| ==>
               (ids[i] == ids[j] <==> Leading(sorted[i].ordinal) == Leading(sorted[j].ordinal))
    ensures LeadingsDiffer(sorted) <==> NoRepeats(ids)
  {
    hide Leading;
  }

  lemma SameMembers<T>(xs: seq<T>, ys: seq<T>)
    requires multiset(xs) == multiset(ys)
    ensures forall i :: 0 <= i < |xs| ==> exists j :: 0 <= j < |ys| && ys[j] == xs[i]
    ensures forall j :: 0 <= j < |ys| ==> exists i :: 0 <= i < |xs| && xs[i] == ys[j]
  {
    forall i | 0 <= i < |xs| ensures exists j :: 0 <= j < |ys| && ys[j] == xs[i] {
      assert xs[i] in multiset(xs) && xs[i] in multiset(ys);
      assert xs[i] in ys;
    }
    forall j | 0 <= j < |ys| ensures exists i :: 0 <= i < |xs| && xs[i] == ys[j] {
      assert ys[j] in multiset(ys) && ys[j] in multiset(xs);
      assert ys[j] in xs;
    }
  }

  lemma NewIds(d: Database, hostname: string, units: seq<InitUnit>)
    requires d.IdsGenerated() && !UnitsOn(d, hostname)
    ensures ToSet(IdList(hostname, units)) !! d.units.Keys
  {
    hide ComputeId;
    forall i | 0 <= i < |units| ensures ComputeId(hostname, units[i].ordinal) !in d.units {
      var c := ComputeId(hostname, units[i].ordinal);
      if c in d.units {
        ComputeIdCollision(hostname, units[i].ordinal, d.units[c].hostname, d.units[c].ordinal);
      }
    }
  }

  /** The host's rows after a successful init. */
  function AddedUnits(d: Database, e: Database): set<string> {
    e.units.Keys - d.units.Keys
  }

  /**
   A successful init of a host without units makes it ready, keeps every other row, and adds at most
   one row for each spec. It adds a free row for every spec exactly when no two ordinals start with the
   same two digits; otherwise units are silently missing.
   */
  lemma InitAddsOneRowPerSpec(d: Database, request: InitRequest)
    requires d.IdsGenerated() && request.hostname in d.servers && !UnitsOn(d, request.hostname)
    requires ValidUnits(request.specs)
    ensures var p := InitFinished(d, request, Successful);
            var units := InitUnits(request.specs);
            var added := AddedUnits(d, p.db);
            && !p.raised && request.hostname in p.db.servers && p.db.servers[request.hostname].status == Ready
            && (forall c :: c in d.units ==> c in p.db.units && p.db.units[c] == d.units[c])
            && added == ToSet(IdList(request.hostname, units)) && |added| <= |request.specs|
            && (|added| == |request.specs| <==> LeadingsDiffer(request.specs))
            && (LeadingsDiffer(request.specs) ==>
                  forall i :: 0 <= i < |units| ==>
                    var id := ComputeId(request.hostname, units[i].ordinal);
                    id in p.db.units && p.db.units[id] == UnitRow(request.hostname, units[i]))
  {
    hide ComputeId, AllApart, UnitsOn, Database.IdsGenerated, InsertedUnits, InitUnits, UnitRow, LeadingsDiffer,
         SortSpecs;
    var units := InitUnits(request.specs);
    var ids := IdList(request.hostname, units);
    InsertedRows(d, request.hostname, units);
    NewIds(d, request.hostname, units);
    IdsRepeatIffLeadingsDo(request.hostname, request.specs);
    ToSetSize(ids);
    SortedOrdinals(request.specs);
    assert AddedUnits(d, InitFinished(d, request, Successful).db) == ToSet(ids);
    assert forall i :: 0 <= i < |ids| ==> ids[i] in ToSet(ids);
  }

  /** The row of a spec: free and unowned, under its ordinal and text, with the CPUs the text stands for. */
  ghost predicate RowOfSpec(row: ComputeUnit, hostname: string, spec: UnitSpec)
    requires Parses(spec)
  {
    && row.hostname == hostname && row.ordinal == spec.ordinal && row.cpuRange == spec.cpuRange
    && CpusOf(row.cpuSet) == IdsOf(spec) && row.cpuCount == |IdsOf(spec)|
    && row.status == UnitStatus.Free && row.allocationId.None?
  }

  /** Each spec of the request finds its own row in the table. */
  lemma EverySpecHasItsRow(d: Database, request: InitRequest, k: nat)
    requires d.IdsGenerated() && request.hostname in d.servers && !UnitsOn(d, request.hostname)
    requires ValidUnits(request.specs) && LeadingsDiffer(request.specs) && k < |request.specs|
    ensures Parses(request.specs[k])
    ensures var units := InitFinished(d, request, Successful).db.units;
            var id := ComputeId(request.hostname, request.specs[k].ordinal);
            id in units && RowOfSpec(units[id], request.hostname, request.specs[k])
  {
    hide ComputeId, AllApart, UnitsOn, Database.IdsGenerated, InsertedUnits, InitUnits, LeadingsDiffer, SortSpecs,
         CpusOf, IdsOf, InitFinished, PairwiseDisjoint, CpuSets, TotalCpuCount, Union, StartOf, Parses;
    InitAddsOneRowPerSpec(d, request);
    InitUnitsPartition(request.specs);
    var units, sorted := InitUnits(request.specs), SortSpecs(request.specs);
    SameMembers(request.specs, sorted);
    assert |sorted| == |multiset(sorted)| == |multiset(request.specs)| == |request.specs|;
    var i :| 0 <= i < |sorted| && sorted[i] == request.specs[k];
    assert units[i].ordinal == sorted[i].ordinal;
  }

  lemma SmallOrdinalsDiffer(specs: seq<UnitSpec>)
    requires forall i :: 0 <= i < |specs| ==> specs[i].ordinal < 100
    ensures LeadingsDiffer(specs)
  {
  }

  /** With ordinals below 100 every spec gets its row. */
  lemma SmallOrdinalsAllGetRows(d: Database, request: InitRequest)
    requires d.IdsGenerated() && request.hostname in d.servers && !UnitsOn(d, request.hostname)
    requires ValidUnits(request.specs) && forall i :: 0 <= i < |request.specs| ==> request.specs[i].ordinal < 100
    ensures |AddedUnits(d, InitFinished(d, request, Successful).db)| == |request.specs|
  {
    hide Database.IdsGenerated, ValidUnits, InitFinished, UnitsOn, LeadingsDiffer;
    SmallOrdinalsDiffer(request.specs);
    InitAddsOneRowPerSpec(d, request);
  }

  const COLLIDING: seq<UnitSpec> := [UnitSpec(10, "0"), UnitSpec(100, "1")]

  lemma CollidingIsValid()
    ensures ValidUnits(COLLIDING) && !LeadingsDiffer(COLLIDING)
  {
    hide CpuIdsForRange, Leading, RangeText;
    DigitsPrinted();
    OneCpu(10, 0, "0");
    OneCpu(100, 1, "1");
    assert COLLIDING[0].ordinal == 10 && COLLIDING[1].ordinal == 100;
  }

  lemma DigitsPrinted()
    ensures RangeText(0, 0) == "0" && RangeText(1, 1) == "1" && Leading(10) == Leading(100)
  {
  }

  lemma OneCpu(ordinal: Ordinal, cpu: nat, text: string)
    requires text == RangeText(cpu, cpu)
    ensures Parses(UnitSpec(ordinal, text)) && IdsOf(UnitSpec(ordinal, text)) == {cpu}
  {
    hide CpuIdsForRange, ParseCpuRange, JsCpus, RangeText;
    RangeTextReadsBack(cpu, cpu);
    assert Consecutive(cpu, cpu) == [cpu];
  }

  /** A valid request whose unit 100 is silently lost, on any host that has no units yet. */
  lemma OrdinalHundredIsLost(d: Database, request: InitRequest)
    requires d.IdsGenerated() && request.hostname in d.servers && !UnitsOn(d, request.hostname)
    requires request.specs == COLLIDING
    ensures ValidUnits(request.specs) && |request.specs| == 2
    ensures var p := InitFinished(d, request, Successful); !p.raised && |AddedUnits(d, p.db)| == 1
  {
    CollidingIsValid();
    hide Database.IdsGenerated, ValidUnits, InitFinished, UnitsOn, LeadingsDiffer, InitUnits, ComputeId;
    InitAddsOneRowPerSpec(d, request);
    SomeUnit(request.hostname, request.specs);
  }

  lemma SomeUnit(hostname: string, specs: seq<UnitSpec>)
    requires ValidUnits(specs)
    ensures |ToSet(IdList(hostname, InitUnits(specs)))| > 0
  {
    hide AllApart, InitUnits, ComputeId;
    SortedOrdinals(specs);
    var ids := IdList(hostname, InitUnits(specs));
    assert ids[0] in ToSet(ids);
  }

  // ---- Running the same request again ----

  /** The rows of the list are in the table, whatever has become of their status and owner. */
  ghost predicate Present(d: Database, hostname: string, units: seq<InitUnit>) {
    forall i :: 0 <= i < |units| ==> ComputeId(hostname, units[i].ordinal) in d.units
  }

  lemma InsertedArePresent(d: Database, hostname: string, units: seq<InitUnit>)
    requires d.IdsGenerated() && hostname in d.servers
    ensures Present(InsertedUnits(d, hostname, units).db, hostname, units)
  {
    hide ComputeId, Database.IdsGenerated, InsertedUnits;
    InsertedRows(d, hostname, units);
    var ids := IdList(hostname, units);
    forall i | 0 <= i < |units| ensures ComputeId(hostname, units[i].ordinal) in InsertedUnits(d, hostname,
        units).db.units {
      assert ids[i] in ToSet(ids);
    }
  }

  /** Inserting units that are present changes nothing at all. */
  lemma {:induction false} PresentUnitsStay(d: Database, hostname: string, units: seq<InitUnit>)
    requires hostname in d.servers && Present(d, hostname, units)
    ensures InsertedUnits(d, hostname, units) == Start(d)
  {
    hide ComputeId;
    if units != [] {
      PresentUnitsStay(d, hostname, units[..|units| - 1]);
      assert ComputeId(hostname, units[|units| - 1].ordinal) in d.units;
    }
  }

  /**
   Once a request has been carried out, the same request changes no unit row, even after the units have
   been allocated, locked or freed in between.
   */
  lemma RepeatedInitKeepsUnits(d: Database, later: Database, request: InitRequest)
    requires d.IdsGenerated() && request.hostname in d.servers && ValidUnits(request.specs)
    requires var first := InitFinished(d, request, Successful).db;
             first.units.Keys <= later.units.Keys && request.hostname in later.servers
    ensures InitFinished(later, request, Successful).db.units == later.units
  {
    hide ComputeId, Database.IdsGenerated, InsertedUnits, InitUnits, AllApart;
    var units := InitUnits(request.specs);
    InsertedArePresent(d, request.hostname, units);
    InsertedRows(d, request.hostname, units);
    PresentUnitsStay(later, request.hostname, units);
  }
}
