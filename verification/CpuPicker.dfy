/**
 The CPU picker of the server-init dialog (kloigos/webapp/extension.js): it may only ever hold units
 that share no CPU, and what it builds must pass the server's validator.
 */
module CpuPicker {
  import opened Collections
  import opened CpuRange
  import opened JsRange
  import opened Options
  import opened ServerSpecs
  import opened Text

  datatype PickedUnit = PickedUnit(ordinal: nat, cpus: seq<nat>, cpuRange: string)

  datatype PrintFault = NeedsCpu | OutsideCount(cpu: nat) | NotContiguous

  datatype RangePrint = Range(text: string) | Refused(fault: PrintFault)

  datatype Payload = Built(specs: seq<UnitSpec>) | NoUnitsLeft | UnitRefused(index: nat, fault: PrintFault)

  predicate Ascending(cpus: seq<nat>) {
    forall i, j :: 0 <= i < j < |cpus| ==> cpus[i] < cpus[j]
  }

  predicate Contiguous(cpus: seq<nat>) {
    forall i :: 1 <= i < |cpus| ==> cpus[i] == cpus[i - 1] + 1
  }

  /** Without a usable CPU count every CPU is offered. */
  predicate Offered(cpu: nat, cpuCount: Option<nat>) {
    cpuCount.Some? ==> cpu < cpuCount.value
  }

  function FirstNotOffered(cpus: seq<nat>, cpuCount: Option<nat>): (k: nat)
    ensures k <= |cpus|
    ensures forall i :: 0 <= i < k ==> Offered(cpus[i], cpuCount)
    ensures k < |cpus| ==> !Offered(cpus[k], cpuCount)
  {
    if cpus == [] || !Offered(cpus[0], cpuCount) then 0 else 1 + FirstNotOffered(cpus[1..], cpuCount)
  }

  /** `serverInitCpuRange` on ascending CPUs. */
  function PrintRange(cpus: seq<nat>, cpuCount: Option<nat>): RangePrint {
    if cpus == [] then Refused(NeedsCpu) else
    var outside := FirstNotOffered(cpus, cpuCount);
    if outside < |cpus| then Refused(OutsideCount(cpus[outside]))
    else if !Contiguous(cpus) then Refused(NotContiguous)
    else Range(RangeText(cpus[0], cpus[|cpus| - 1]))
  }

  function InsertNumber(x: nat, sorted: seq<nat>): seq<nat> {
    if sorted == [] || x <= sorted[0] then [x] + sorted else [sorted[0]] + InsertNumber(x, sorted[1..])
  }

  /** `sort((left, right) => left - right)`. */
  function SortNumbers(xs: seq<nat>): seq<nat> {
    if xs == [] then [] else InsertNumber(xs[0], SortNumbers(xs[1..]))
  }

  function Without(cpus: seq<nat>, cpu: nat): seq<nat> {
    if cpus == [] then []
    else if cpus[0] == cpu then Without(cpus[1..], cpu)
    else [cpus[0]] + Without(cpus[1..], cpu)
  }

  function ToggledCpus(cpus: seq<nat>, cpu: nat): seq<nat> {
    SortNumbers(if cpu in cpus then Without(cpus, cpu) else cpus + [cpu])
  }

  /** The text shown for a unit: its range, or its CPUs joined by commas when they form none. */
  function Label(cpus: seq<nat>, cpuCount: Option<nat>): string {
    if cpus == [] then "" else
    match PrintRange(cpus, cpuCount)
    case Range(text) => text
    case Refused(_) => CpuSetText(cpus)
  }

  predicate AssignedToOther(units: seq<PickedUnit>, index: nat, cpu: nat) {
    exists j :: 0 <= j < |units| && j != index && cpu in units[j].cpus
  }

  function ToggledUnit(unit: PickedUnit, cpu: nat, cpuCount: Option<nat>): PickedUnit {
    var cpus := ToggledCpus(unit.cpus, cpu);
    unit.(cpus := cpus, cpuRange := Label(cpus, cpuCount))
  }

  function Renumbered(units: seq<PickedUnit>): (r: seq<PickedUnit>)
    ensures |r| == |units| && forall i :: 0 <= i < |r| ==> r[i] == units[i].(ordinal := i + 1)
  {
    seq(|units|, i requires 0 <= i < |units| => units[i].(ordinal := i + 1))
  }

  predicate Disjoint(x: PickedUnit, y: PickedUnit) {
    forall cpu :: cpu in x.cpus ==> cpu !in y.cpus
  }

  /** Every unit lists its CPUs in strictly ascending order, and no two units share one. */
  predicate Tidy(units: seq<PickedUnit>) {
    && (forall i :: 0 <= i < |units| ==> Ascending(units[i].cpus))
    && (forall i, j :: 0 <= i < |units| && 0 <= j < |units| && i != j ==> Disjoint(units[i], units[j]))
  }

  function DefaultUnit(cpuCount: Option<nat>): PickedUnit {
    var n := if cpuCount.Some? && cpuCount.value > 0 then cpuCount.value else 4;
    PickedUnit(1, Consecutive(0, n - 1), RangeText(0, n - 1))
  }

  /** How the dialog shows a unit of the server's last request. */
  function Shown(spec: UnitSpec): PickedUnit {
    PickedUnit(spec.ordinal, JsCpus(spec.cpuRange), Trim(spec.cpuRange))
  }

  /** The units the dialog can read, in the order of the request; the others are dropped. */
  function Readable(specs: seq<UnitSpec>): seq<PickedUnit> {
    if specs == [] then [] else
    var last := specs[|specs| - 1];
    Readable(specs[..|specs| - 1]) + if JsCpus(last.cpuRange) != [] then [Shown(last)] else []
  }

  predicate InOrdinalOrder(units: seq<PickedUnit>) {
    forall i, j :: 0 <= i < j < |units| ==> units[i].ordinal <= units[j].ordinal
  }

  /** A stable sort by ordinal, one unit at a time. */
  function PlaceUnit(unit: PickedUnit, units: seq<PickedUnit>): seq<PickedUnit> {
    if units == [] || unit.ordinal < units[0].ordinal then [unit] + units
    else [units[0]] + PlaceUnit(unit, units[1..])
  }

  // ---- Sequences of edits ----

  datatype Edit = Toggle(index: nat, cpu: nat) | Add | Remove(index: nat)

  /** The dialog offers its buttons only for units it shows. */
  predicate Offers(units: seq<PickedUnit>, edit: Edit) {
    edit.Add? || edit.index < |units|
  }

  function Edited(units: seq<PickedUnit>, edit: Edit, cpuCount: Option<nat>): seq<PickedUnit>
    requires Offers(units, edit)
  {
    match edit
    case Toggle(index, cpu) =>
      if AssignedToOther(units, index, cpu) then units
      else units[index := ToggledUnit(units[index], cpu, cpuCount)]
    case Add => units + [PickedUnit(|units| + 1, [], "")]
    case Remove(index) => if |units| <= 1 then units else Renumbered(units[..index] + units[index + 1..])
  }

  predicate AllOffered(units: seq<PickedUnit>, edits: seq<Edit>, cpuCount: Option<nat>)
    decreases |edits|
  {
    edits == [] || (Offers(units, edits[0]) && AllOffered(Edited(units, edits[0], cpuCount), edits[1..], cpuCount))
  }

  function EditedBy(units: seq<PickedUnit>, edits: seq<Edit>, cpuCount: Option<nat>): seq<PickedUnit>
    requires AllOffered(units, edits, cpuCount)
    decreases |edits|
  {
    if edits == [] then units else EditedBy(Edited(units, edits[0], cpuCount), edits[1..], cpuCount)
  }

  class Picker {
    var units: seq<PickedUnit>
    const cpuCount: Option<nat>

    predicate Valid()
      reads this
    {
      units != [] && Tidy(units)
    }

    /** `serverInitComputeUnitsFromServer`: unreadable ranges are dropped, and with none left a default is offered. */
    constructor (specs: seq<UnitSpec>, cpuCount: Option<nat>)
      requires cpuCount.Some? ==> cpuCount.value > 0
      ensures this.cpuCount == cpuCount
      ensures AllApart(specs) ==> Valid()
      ensures multiset(units) == multiset(if Readable(specs) != [] then Readable(specs) else [DefaultUnit(cpuCount)])
      ensures InOrdinalOrder(units)
    {
      hide JsCpus, AllApart, Tidy, Consecutive, RangeText, InOrdinalOrder, PlaceUnit, Readable;
      this.cpuCount := cpuCount;
      var shown: seq<PickedUnit> := [];
      NoneIsTidy();
      NoneReadable(specs);
      for k := 0 to |specs|
        invariant multiset(shown) == multiset(Readable(specs[..k])) && InOrdinalOrder(shown)
        invariant AllApart(specs) ==> Tidy(shown)
      {
        OneMoreReadable(specs, k);
        if JsCpus(specs[k].cpuRange) != [] {
          PlacedMembers(Shown(specs[k]), shown);
          PlacedInOrder(Shown(specs[k]), shown);
          if AllApart(specs) {
            ShownStaysTidy(specs, k, shown);
          }
          shown := PlaceUnit(Shown(specs[k]), shown);
        }
      }
      assert specs[..|specs|] == specs;
      assert |shown| == |multiset(shown)| == |multiset(Readable(specs))| == |Readable(specs)|;
      if shown == [] {
        shown := [DefaultUnit(cpuCount)];
        DefaultIsTidy(cpuCount);
      }
      units := shown;
    }

    /** `toggleServerInitUnitCpu`. */
    method ToggleCpu(index: nat, cpu: nat)
      requires index < |units|
      modifies this`units
      ensures units == if AssignedToOther(old(units), index, cpu) then old(units)
                       else old(units)[index := ToggledUnit(old(units)[index], cpu, cpuCount)]
      ensures |units| == |old(units)| && forall j :: 0 <= j < |units| && j != index ==> units[j] == old(units)[j]
      ensures (exists j :: 0 <= j < |old(units)| && j != index && cpu in old(units)[j].cpus) ==>
                units[index] == old(units)[index]
      ensures (forall j :: 0 <= j < |old(units)| && j != index ==> cpu !in old(units)[j].cpus) ==>
                units[index] == ToggledUnit(old(units)[index], cpu, cpuCount)
      ensures old(Valid()) ==> Valid()
    {
      if AssignedToOther(units, index, cpu) {
        return;
      }
      if Valid() {
        ToggleStaysTidy(units, index, cpu, cpuCount);
      }
      units := units[index := ToggledUnit(units[index], cpu, cpuCount)];
    }

    /** `addServerInitComputeUnit`. */
    method AddUnit()
      modifies this`units
      ensures units == old(units) + [PickedUnit(|old(units)| + 1, [], "")]
      ensures old(Valid()) ==> Valid()
    {
      units := units + [PickedUnit(|units| + 1, [], "")];
    }

    /** `removeServerInitComputeUnit`: the last unit stays. */
    method RemoveUnit(index: nat)
      requires index < |units|
      modifies this`units
      ensures units == if |old(units)| <= 1 then old(units)
                       else Renumbered(old(units)[..index] + old(units)[index + 1..])
      ensures |old(units)| > 1 ==>
                && |units| == |old(units)| - 1
                && forall i :: 0 <= i < |units| ==>
                     units[i] == old(units)[if i < index then i else i + 1].(ordinal := i + 1)
      ensures old(Valid()) ==> Valid()
    {
      if |units| <= 1 {
        return;
      }
      units := Renumbered(units[..index] + units[index + 1..]);
    }

    /** The compute units of `buildServerInitPayload`: the first unit that cannot be printed stops it. */
    method Build() returns (payload: Payload)
      ensures payload.Built? <==> units != [] && forall i :: 0 <= i < |units| ==>
               PrintRange(units[i].cpus, cpuCount).Range?
      ensures payload.Built? ==>
                && |payload.specs| == |units|
                && forall i :: 0 <= i < |units| ==>
                     payload.specs[i] == UnitSpec(i + 1, PrintRange(units[i].cpus, cpuCount).text)
      ensures Valid() && payload.Built? ==> ValidUnits(payload.specs)
      ensures payload.UnitRefused? ==>
                && payload.index < |units| && PrintRange(units[payload.index].cpus, cpuCount) == Refused(payload.fault)
                && forall i :: 0 <= i < payload.index ==> PrintRange(units[i].cpus, cpuCount).Range?
    {
      var specs: seq<UnitSpec> := [];
      for k := 0 to |units|
        invariant |specs| == k
        invariant forall i :: 0 <= i < k ==>
                    && PrintRange(units[i].cpus, cpuCount).Range?
                    && specs[i] == UnitSpec(i + 1, PrintRange(units[i].cpus, cpuCount).text)
      {
        var printed := PrintRange(units[k].cpus, cpuCount);
        if printed.Refused? {
          return UnitRefused(k, printed.fault);
        }
        specs := specs + [UnitSpec(k + 1, printed.text)];
      }
      if specs == [] {
        return NoUnitsLeft;
      }
      if Valid() {
        BuiltIsValid(units, cpuCount, specs);
      }
      return Built(specs);
    }

    /** The edits of a user, one after the other. */
    method Apply(edits: seq<Edit>)
      requires Valid() && AllOffered(units, edits, cpuCount)
      modifies this`units
      ensures units == EditedBy(old(units), edits, cpuCount) && Valid()
    {
      hide Edited, Tidy;
      for k := 0 to |edits|
        invariant Valid() && AllOffered(units, edits[k..], cpuCount)
        invariant EditedBy(units, edits[k..], cpuCount) == EditedBy(old(units), edits, cpuCount)
      {
        assert edits[k..][0] == edits[k] && edits[k..][1..] == edits[k + 1..];
        ghost var before := units;
        match edits[k] {
          case Toggle(index, cpu) => ToggleCpu(index, cpu);
          case Add => AddUnit();
          case Remove(index) => RemoveUnit(index);
        }
        EditedIs(before, edits[k], cpuCount, units);
      }
      assert edits[|edits|..] == [];
    }
  }

  lemma EditedIs(before: seq<PickedUnit>, edit: Edit, cpuCount: Option<nat>, after: seq<PickedUnit>)
    requires Offers(before, edit)
    requires match edit
             case Toggle(index, cpu) =>
               after == if AssignedToOther(before, index, cpu) then before
                        else before[index := ToggledUnit(before[index], cpu, cpuCount)]
             case Add => after == before + [PickedUnit(|before| + 1, [], "")]
             case Remove(index) =>
               after == if |before| <= 1 then before else Renumbered(before[..index] + before[index + 1..])
    ensures after == Edited(before, edit, cpuCount)
  {
  }

  lemma EditStaysTidy(units: seq<PickedUnit>, edit: Edit, cpuCount: Option<nat>)
    requires units != [] && Tidy(units) && Offers(units, edit)
    ensures var after := Edited(units, edit, cpuCount); after != [] && Tidy(after)
  {
    hide ToggledUnit, Ascending;
    match edit
    case Toggle(index, cpu) =>
      if !AssignedToOther(units, index, cpu) {
        ToggleStaysTidy(units, index, cpu, cpuCount);
      }
    case Add =>
      NothingIsAscending();
    case Remove(index) =>
      RemovalStaysTidy(units, index);
  }

  lemma RemovalStaysTidy(units: seq<PickedUnit>, index: nat)
    requires Tidy(units) && index < |units|
    ensures Tidy(Renumbered(units[..index] + units[index + 1..]))
  {
    hide Ascending;
    var rest := units[..index] + units[index + 1..];
    assert forall i :: 0 <= i < |rest| ==> rest[i] == if i < index then units[i] else units[i + 1];
  }

  lemma NothingIsAscending()
    ensures Ascending([])
  {
  }

  /**
   However the user toggles, adds and removes from a disjoint start, the units stay disjoint and
   ascending, and a request that is then built passes the validator.
   */
  lemma {:induction false} AnyEditsStayTidy(units: seq<PickedUnit>, edits: seq<Edit>, cpuCount: Option<nat>)
    requires units != [] && Tidy(units) && AllOffered(units, edits, cpuCount)
    ensures var after := EditedBy(units, edits, cpuCount); after != [] && Tidy(after)
    decreases |edits|
  {
    hide Edited, Tidy;
    if edits != [] {
      EditStaysTidy(units, edits[0], cpuCount);
      AnyEditsStayTidy(Edited(units, edits[0], cpuCount), edits[1..], cpuCount);
    }
  }

  /** The units are numbered from one. */
  predicate Numbered(units: seq<PickedUnit>) {
    forall i :: 0 <= i < |units| ==> units[i].ordinal == i + 1
  }

  /** Edits never lose a unit's number, and a removal numbers the units even if they were not before. */
  lemma EditsKeepNumbers(units: seq<PickedUnit>, edit: Edit, cpuCount: Option<nat>)
    requires Offers(units, edit)
    ensures Numbered(units) ==> Numbered(Edited(units, edit, cpuCount))
    ensures edit.Remove? && |units| > 1 ==> Numbered(Edited(units, edit, cpuCount))
  {
    hide ToggledCpus, Label;
    var after := Edited(units, edit, cpuCount);
    assert edit.Add? ==> forall i :: 0 <= i < |units| ==> after[i] == units[i];
  }

  // ---- Toggling ----

  lemma {:induction false} InsertNumberFacts(x: nat, sorted: seq<nat>)
    requires Ascending(sorted) && x !in sorted
    ensures Ascending(InsertNumber(x, sorted))
    ensures forall y :: y in InsertNumber(x, sorted) <==> y == x || y in sorted
  {
    if sorted != [] && x > sorted[0] {
      var rest := InsertNumber(x, sorted[1..]);
      InsertNumberFacts(x, sorted[1..]);
      forall j | 0 <= j < |rest| ensures sorted[0] < rest[j] {
        assert rest[j] in rest;
      }
    }
  }

  lemma {:induction false} SortNumbersFacts(xs: seq<nat>)
    requires NoRepeats(xs)
    ensures Ascending(SortNumbers(xs))
    ensures forall y :: y in SortNumbers(xs) <==> y in xs
  {
    if xs != [] {
      assert forall i :: 1 <= i < |xs| ==> xs[i] == xs[1..][i - 1];
      SortNumbersFacts(xs[1..]);
      assert xs[0] !in xs[1..];
      InsertNumberFacts(xs[0], SortNumbers(xs[1..]));
    }
  }

  lemma {:induction false} WithoutFacts(cpus: seq<nat>, cpu: nat)
    requires NoRepeats(cpus)
    ensures NoRepeats(Without(cpus, cpu))
    ensures forall y :: y in Without(cpus, cpu) <==> y in cpus && y != cpu
  {
    if cpus != [] {
      assert forall i :: 1 <= i < |cpus| ==> cpus[i] == cpus[1..][i - 1];
      WithoutFacts(cpus[1..], cpu);
      assert cpus[0] !in cpus[1..];
      var rest := Without(cpus[1..], cpu);
      forall j | 0 <= j < |rest| ensures rest[j] != cpus[0] {
        assert rest[j] in rest;
      }
    }
  }

  /** A toggle adds the CPU or takes it away, and keeps the others and the order. */
  lemma ToggleFlips(cpus: seq<nat>, cpu: nat)
    requires Ascending(cpus)
    ensures Ascending(ToggledCpus(cpus, cpu))
    ensures ToSet<int>(ToggledCpus(cpus, cpu))
         == if cpu in cpus then ToSet<int>(cpus) - {cpu} else ToSet<int>(cpus) + {cpu}
    ensures ToggledCpus(ToggledCpus(cpus, cpu), cpu) == cpus
  {
    var once := ToggledCpus(cpus, cpu);
    ToggledMembers(cpus, cpu);
    ToggledMembers(once, cpu);
    SameWhenAscending(ToggledCpus(once, cpu), cpus);
  }

  lemma ToggledMembers(cpus: seq<nat>, cpu: nat)
    requires Ascending(cpus)
    ensures Ascending(ToggledCpus(cpus, cpu))
    ensures forall y :: y in ToggledCpus(cpus, cpu) <==> (y in cpus && y != cpu) || (y == cpu && cpu !in cpus)
  {
    if cpu in cpus {
      WithoutFacts(cpus, cpu);
      SortNumbersFacts(Without(cpus, cpu));
    } else {
      SortNumbersFacts(cpus + [cpu]);
    }
  }

  /** Ascending lists with the same members are equal. */
  lemma {:induction false} SameWhenAscending(xs: seq<nat>, ys: seq<nat>)
    requires Ascending(xs) && Ascending(ys) && forall y :: y in xs <==> y in ys
    ensures xs == ys
  {
    ToSetSize(xs);
    ToSetSize(ys);
    assert ToSet(xs) == ToSet(ys);
    if xs != [] {
      assert xs[0] in ys && ys[0] in xs;
      assert xs[0] == ys[0];
      forall y ensures y in xs[1..] <==> y in ys[1..] {
        assert y in xs[1..] <==> y in xs && y != xs[0];
        assert y in ys[1..] <==> y in ys && y != ys[0];
      }
      SameWhenAscending(xs[1..], ys[1..]);
    }
  }

  lemma ToggleStaysTidy(units: seq<PickedUnit>, index: nat, cpu: nat, cpuCount: Option<nat>)
    requires index < |units| && Tidy(units) && !AssignedToOther(units, index, cpu)
    ensures Tidy(units[index := ToggledUnit(units[index], cpu, cpuCount)])
  {
    hide ToggledCpus, Label;
    ToggledMembers(units[index].cpus, cpu);
  }

  // ---- Opening the dialog ----

  lemma NoneIsTidy()
    ensures Tidy([])
  {
  }

  lemma DefaultIsTidy(cpuCount: Option<nat>)
    ensures Tidy([DefaultUnit(cpuCount)]) && InOrdinalOrder([DefaultUnit(cpuCount)])
  {
  }

  lemma {:induction false} PlacedMembers(unit: PickedUnit, units: seq<PickedUnit>)
    ensures forall u :: u in PlaceUnit(unit, units) <==> u == unit || u in units
    ensures multiset(PlaceUnit(unit, units)) == multiset(units) + multiset{unit}
  {
    if units != [] && unit.ordinal >= units[0].ordinal {
      PlacedMembers(unit, units[1..]);
      assert units == [units[0]] + units[1..];
    }
  }

  lemma {:induction false} PlacedInOrder(unit: PickedUnit, units: seq<PickedUnit>)
    requires InOrdinalOrder(units)
    ensures InOrdinalOrder(PlaceUnit(unit, units))
  {
    if units != [] && unit.ordinal >= units[0].ordinal {
      var rest := PlaceUnit(unit, units[1..]);
      PlacedInOrder(unit, units[1..]);
      PlacedMembers(unit, units[1..]);
      forall j | 0 <= j < |rest| ensures units[0].ordinal <= rest[j].ordinal {
        assert rest[j] in rest;
      }
    }
  }

  lemma NoneReadable(specs: seq<UnitSpec>)
    ensures Readable(specs[..0]) == [] && InOrdinalOrder([])
  {
  }

  lemma OneMoreReadable(specs: seq<UnitSpec>, k: nat)
    requires k < |specs|
    ensures Readable(specs[..k + 1])
         == Readable(specs[..k]) + if JsCpus(specs[k].cpuRange) != [] then [Shown(specs[k])] else []
  {
    hide JsCpus;
    assert specs[..k + 1][..k] == specs[..k];
  }

  lemma {:induction false} ReadableMembers(specs: seq<UnitSpec>, u: PickedUnit) returns (j: nat)
    requires u in Readable(specs)
    ensures j < |specs| && u == Shown(specs[j]) && u.cpus != []
  {
    hide JsCpus;
    j := |specs| - 1;
    if u in Readable(specs[..j]) {
      j := ReadableMembers(specs[..j], u);
    }
  }

  lemma {:induction false} PlacedStaysTidy(unit: PickedUnit, units: seq<PickedUnit>)
    requires Tidy(units) && Ascending(unit.cpus) && forall u :: u in units ==> Disjoint(unit, u)
    ensures Tidy(PlaceUnit(unit, units))
  {
    hide Ascending;
    if units == [] || unit.ordinal < units[0].ordinal {
      ConsStaysTidy(unit, units);
    } else {
      PlacedStaysTidy(unit, units[1..]);
      PlacedMembers(unit, units[1..]);
      assert Disjoint(unit, units[0]);
      ConsStaysTidy(units[0], PlaceUnit(unit, units[1..]));
    }
  }

  lemma ConsStaysTidy(unit: PickedUnit, units: seq<PickedUnit>)
    requires Tidy(units) && Ascending(unit.cpus) && forall u :: u in units ==> Disjoint(unit, u)
    ensures Tidy([unit] + units)
  {
    hide Ascending;
    forall j | 0 <= j < |units| ensures Disjoint(unit, units[j]) && Disjoint(units[j], unit) {
      assert units[j] in units;
    }
  }

  /** What the dialog shows for a valid spec is what the validator read, if it shows anything. */
  lemma ShownIsParsed(spec: UnitSpec)
    requires Parses(spec) && JsCpus(spec.cpuRange) != []
    ensures Ascending(Shown(spec).cpus) && ToSet<int>(Shown(spec).cpus) == IdsOf(spec)
  {
    hide CpuIdsForRange, JsCpus;
    ClientAgreesWithValidator(spec.cpuRange);
    var start, end := JsCpusShape(spec.cpuRange);
  }

  lemma ShownStaysTidy(specs: seq<UnitSpec>, k: nat, shown: seq<PickedUnit>)
    requires k < |specs| && AllApart(specs) && JsCpus(specs[k].cpuRange) != []
    requires Tidy(shown) && multiset(shown) == multiset(Readable(specs[..k]))
    ensures Tidy(PlaceUnit(Shown(specs[k]), shown))
  {
    hide CpuIdsForRange, JsCpus, Ascending, Tidy;
    ShownIsParsed(specs[k]);
    forall u | u in shown ensures Disjoint(Shown(specs[k]), u) {
      assert u in multiset(shown);
      var j := ReadableMembers(specs[..k], u);
      ShownIsParsed(specs[j]);
      assert Apart(specs[j], specs[k]);
      SharedWouldShow(Shown(specs[k]), u, IdsOf(specs[k]), IdsOf(specs[j]));
    }
    PlacedStaysTidy(Shown(specs[k]), shown);
  }

  lemma SharedWouldShow(x: PickedUnit, y: PickedUnit, xs: set<int>, ys: set<int>)
    requires ToSet<int>(x.cpus) == xs && ToSet<int>(y.cpus) == ys && xs !! ys
    ensures Disjoint(x, y)
  {
    forall cpu | cpu in x.cpus ensures cpu !in y.cpus {
      assert cpu in ToSet<int>(x.cpus);
      assert cpu in y.cpus ==> cpu in ToSet<int>(y.cpus);
    }
  }

  // ---- Building the request ----

  lemma {:induction false} ContiguousIsConsecutive(cpus: seq<nat>)
    requires cpus != [] && Contiguous(cpus)
    ensures cpus[0] <= cpus[|cpus| - 1] && cpus == Consecutive(cpus[0], cpus[|cpus| - 1])
  {
    if |cpus| > 1 {
      var init := cpus[..|cpus| - 1];
      ContiguousIsConsecutive(init);
      assert cpus == init + [cpus[|cpus| - 1]];
    }
  }

  /** A unit that prints, prints a text that all three parsers read as its CPUs. */
  lemma PrintedReadsBack(cpus: seq<nat>, cpuCount: Option<nat>)
    requires PrintRange(cpus, cpuCount).Range?
    ensures var text := PrintRange(cpus, cpuCount).text;
            && JsCpus(text) == cpus
            && CpuIdsForRange(text) == Ok(ToSet<int>(cpus))
            && ParseCpuRange(text) == Ok(Bounds(cpus[0], cpus[|cpus| - 1], 1))
            && text != ""
  {
    hide JsCpus, CpuIdsForRange, ParseCpuRange;
    ContiguousIsConsecutive(cpus);
    RangeTextReadsBack(cpus[0], cpus[|cpus| - 1]);
  }

  /** Which units print: those that are not empty, have no gap, and stay within the CPU count, if there is one. */
  lemma PrintsExactlyWhen(cpus: seq<nat>, cpuCount: Option<nat>)
    ensures PrintRange(cpus, cpuCount).Range? <==>
            cpus != [] && cpus == Consecutive(cpus[0], cpus[|cpus| - 1])
            && (cpuCount.Some? ==> forall cpu :: cpu in cpus ==> cpu < cpuCount.value)
  {
    if cpus != [] && Contiguous(cpus) {
      ContiguousIsConsecutive(cpus);
    }
    var k := FirstNotOffered(cpus, cpuCount);
    assert k < |cpus| ==> cpus[k] in cpus;
  }

  /** Why a unit does not print: the first CPU beyond the count comes before a gap. */
  lemma RefusedExactlyWhen(cpus: seq<nat>, cpuCount: Option<nat>)
    ensures var printed := PrintRange(cpus, cpuCount);
            var inside := cpuCount.None? || forall i :: 0 <= i < |cpus| ==> cpus[i] < cpuCount.value;
            && (printed == Refused(NeedsCpu) <==> cpus == [])
            && (printed.Refused? && printed.fault.OutsideCount? <==> !inside)
            && (printed.Refused? && printed.fault.OutsideCount? ==>
                  exists k :: 0 <= k < |cpus| && printed.fault.cpu == cpus[k] && cpuCount.value <= cpus[k]
                              && forall i :: 0 <= i < k ==> cpus[i] < cpuCount.value)
            && (printed == Refused(NotContiguous) <==>
                  inside && exists i :: 1 <= i < |cpus| && cpus[i] != cpus[i - 1] + 1)
  {
    var k := FirstNotOffered(cpus, cpuCount);
    assert k < |cpus| ==> !Offered(cpus[k], cpuCount);
    if forall i :: 0 <= i < |cpus| ==> Offered(cpus[i], cpuCount) {
      assert k == |cpus|;
    }
  }

  /** What is shown for a unit reads back as its CPUs, as a range if it prints and as a list if it does not. */
  lemma LabelReadsBack(cpus: seq<nat>, cpuCount: Option<nat>)
    ensures Label(cpus, cpuCount) == "" <==> cpus == []
    ensures PrintRange(cpus, cpuCount).Range? ==> JsCpus(Label(cpus, cpuCount)) == cpus
    ensures cpus != [] && PrintRange(cpus, cpuCount).Refused? ==>
              var numbers := ReadCpuSet(Label(cpus, cpuCount));
              |numbers| == |cpus| && forall i :: 0 <= i < |cpus| ==> numbers[i] == Some(cpus[i] as int)
  {
    hide JsCpus, CpuSetText, ReadCpuSet, Split;
    if cpus != [] {
      if PrintRange(cpus, cpuCount).Range? {
        PrintedReadsBack(cpus, cpuCount);
      } else {
        CpuSetTextReadsBack(cpus);
        ListIsNotEmpty(cpus);
      }
    }
  }

  lemma ListIsNotEmpty(cpus: seq<nat>)
    requires cpus != []
    ensures CpuSetText(cpus) != ""
  {
    assert Printed(cpus)[0] == Decimal(cpus[0]);
  }

  /** With nothing to show the dialog offers one unit of all the host's CPUs, or of four if it has no count. */
  lemma DefaultCoversHost(cpuCount: Option<nat>)
    requires cpuCount.Some? ==> cpuCount.value > 0
    ensures var unit := DefaultUnit(cpuCount);
            && unit.ordinal == 1 && JsCpus(unit.cpuRange) == unit.cpus
            && |unit.cpus| == (if cpuCount.Some? then cpuCount.value else 4)
            && forall i :: 0 <= i < |unit.cpus| ==> unit.cpus[i] == i
  {
    hide JsCpus;
    RangeTextReadsBack(0, if cpuCount.Some? then cpuCount.value - 1 else 3);
  }

  /** The units read from the last request: those whose range the dialog can read, as it reads it. */
  lemma {:induction false} ReadableExactly(specs: seq<UnitSpec>, u: PickedUnit)
    ensures u in Readable(specs) <==>
            exists j :: 0 <= j < |specs| && JsCpus(specs[j].cpuRange) != [] && u.ordinal == specs[j].ordinal
                        && u.cpus == JsCpus(specs[j].cpuRange) && u.cpuRange == Trim(specs[j].cpuRange)
  {
    hide JsCpus, Trim;
    if specs != [] {
      var init, last := specs[..|specs| - 1], specs[|specs| - 1];
      ReadableExactly(init, u);
      assert forall j :: 0 <= j < |init| ==> init[j] == specs[j];
    }
  }

  /**
   Every request the dialog builds passes the server's validator, and each unit row the worker will
   derive from it covers exactly the CPUs that were picked.
   */
  lemma BuiltIsValid(units: seq<PickedUnit>, cpuCount: Option<nat>, specs: seq<UnitSpec>)
    requires units != [] && Tidy(units) && |specs| == |units|
    requires forall i :: 0 <= i < |units| ==>
               PrintRange(units[i].cpus, cpuCount).Range?
                   && specs[i] == UnitSpec(i + 1, PrintRange(units[i].cpus, cpuCount).text)
    ensures ValidUnits(specs)
    ensures forall i :: 0 <= i < |units| ==>
              && Parses(specs[i]) && IdsOf(specs[i]) == ToSet<int>(units[i].cpus)
              && CpusOf(InitUnitOf(specs[i]).cpuSet) == ToSet<int>(units[i].cpus)
  {
    hide CpuIdsForRange, JsCpus, ParseCpuRange, PrintRange, CpusOf, ToCpuSet, Ascending;
    forall i | 0 <= i < |units|
      ensures Parses(specs[i]) && IdsOf(specs[i]) == ToSet<int>(units[i].cpus)
      ensures CpusOf(InitUnitOf(specs[i]).cpuSet) == ToSet<int>(units[i].cpus)
    {
      PrintedReadsBack(units[i].cpus, cpuCount);
      InitUnitOfFacts(specs[i]);
    }
    forall i, j | 0 <= i < j < |units| ensures Apart(specs[i], specs[j]) {
      assert Disjoint(units[i], units[j]);
    }
  }
}
