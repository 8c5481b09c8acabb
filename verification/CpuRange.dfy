/**
 CPU ranges such as "0-7:2". The request validator (kloigos/models.py) and the worker
 (kloigos/util.py) each have their own parser; the platform relies on their agreement.
 */
module CpuRange {
  import opened Arithmetic
  import opened Collections
  import opened Options
  import opened Text

  datatype RangeError = EmptyRange | NotANumber | StepNotPositive | BadBounds

  datatype Parsed<+T> = Ok(value: T) | Err(error: RangeError)

  datatype Bounds = Bounds(start: int, end: int, step: int)

  /** `range(start, end + 1, step)` as a list. */
  function RangeList(start: int, end: int, step: int): (r: seq<int>)
    requires step > 0
    decreases end - start
  {
    if start > end then [] else [start] + RangeList(start + step, end, step)
  }

  /** The members of the progression, described without enumerating it. */
  predicate InRange(b: Bounds, x: int)
    requires b.step > 0
  {
    b.start <= x <= b.end && (x - b.start) % b.step == 0
  }

  // ---- The two parsers ----

  /** The validator's parser: the set of CPU ids. */
  function CpuIdsForRange(cpuRange: string): Parsed<set<int>> {
    var raw := Strip(cpuRange);
    if raw == "" then Err(EmptyRange) else
    var colon := Find(raw, ':');
    var step := if colon < |raw| then ReadInt(raw[colon + 1..]) else Some(1);
    if step.None? then Err(NotANumber) else
    if step.value <= 0 then Err(StepNotPositive) else
    var body := raw[..colon];
    var dash := Find(body, '-');
    var start := ReadInt(body[..dash]);
    var end := if dash < |body| then ReadInt(body[dash + 1..]) else start;
    if start.None? || end.None? then Err(NotANumber) else
    if start.value < 0 || end.value < start.value then Err(BadBounds) else
    Ok(ToSet(RangeList(start.value, end.value, step.value)))
  }

  /** The worker's parser: start, end and step. A single number is never checked for its sign. */
  function ParseCpuRange(cpuRange: string): (r: Parsed<Bounds>)
    ensures r.Ok? ==> r.value.step > 0
  {
    var raw := Strip(cpuRange);
    if raw == "" then Err(EmptyRange) else
    var colon := Find(raw, ':');
    var step := if colon < |raw| then ReadInt(raw[colon + 1..]) else Some(1);
    if step.None? then Err(NotANumber) else
    if step.value <= 0 then Err(StepNotPositive) else
    var body := raw[..colon];
    if '-' !in body then
      var n := ReadInt(body);
      if n.None? then Err(NotANumber) else Ok(Bounds(n.value, n.value, step.value))
    else
      var dash := Find(body, '-');
      var start := ReadInt(body[..dash]);
      var end := ReadInt(body[dash + 1..]);
      if start.None? || end.None? then Err(NotANumber)
      else if end.value < start.value then Err(BadBounds)
      else Ok(Bounds(start.value, end.value, step.value))
  }

  /** The worker's `to_cpu_set`: the ids printed in decimal and joined by commas. */
  function CpuSetText(ids: seq<int>): string
    requires forall i :: 0 <= i < |ids| ==> ids[i] >= 0
  {
    Join(Printed(ids))
  }

  function Printed(ids: seq<int>): (items: seq<string>)
    requires forall i :: 0 <= i < |ids| ==> ids[i] >= 0
    ensures |items| == |ids|
    ensures forall i :: 0 <= i < |ids| ==> items[i] == Decimal(ids[i])
  {
    seq(|ids|, i requires 0 <= i < |ids| => Decimal(ids[i]))
  }

  function ToCpuSet(cpuRange: string): Parsed<string> {
    var b := ParseCpuRange(cpuRange);
    if b.Err? then Err(b.error) else
    ParsedBoundsAreNatural(cpuRange);
    RangeListFacts(b.value);
    Ok(CpuSetText(RangeList(b.value.start, b.value.end, b.value.step)))
  }

  /** Reads a `cpu_set` column back: every comma-separated item as a number. */
  function ReadCpuSet(cpuSet: string): seq<Option<int>> {
    var items := Split(cpuSet);
    seq(|items|, i requires 0 <= i < |items| => ReadInt(items[i]))
  }

  /** The CPUs a `cpu_set` column names. */
  function CpusOf(cpuSet: string): set<int> {
    var numbers := ReadCpuSet(cpuSet);
    set n | n in numbers && n.Some? :: n.value
  }

  // ---- Facts about progressions ----

  lemma RangeListFacts(b: Bounds)
    requires b.step > 0
    ensures var r := RangeList(b.start, b.end, b.step);
            && (b.start <= b.end ==> |r| == (b.end - b.start) / b.step + 1)
            && (b.start <= b.end ==> r != [] && r[0] == b.start)
            && (forall i, j :: 0 <= i < j < |r| ==> r[i] < r[j])
            && (forall x :: x in r ==> b.start <= x <= b.end)
  {
    if b.start <= b.end {
      RangeListLength(b);
    }
    RangeListAscends(b);
  }

  /** How many steps fit between the bounds, one step at a time. */
  lemma StepsFit(width: int, step: int)
    requires step > 0 && width >= 0
    ensures width >= step ==> width / step == (width - step) / step + 1
    ensures width < step ==> width / step == 0
  {
    if width >= step {
      DivisionStep(width, step);
    } else {
      DivisionIsUnique(width, step, 0, width);
    }
  }

  lemma {:induction false} RangeListLength(b: Bounds)
    requires b.step > 0 && b.start <= b.end
    ensures |RangeList(b.start, b.end, b.step)| == (b.end - b.start) / b.step + 1
    decreases b.end - b.start
  {
    StepsFit(b.end - b.start, b.step);
    var rest := Bounds(b.start + b.step, b.end, b.step);
    if rest.start <= b.end {
      RangeListLength(rest);
      assert b.end - b.start - b.step == b.end - rest.start;
    }
  }

  lemma {:induction false} RangeListAscends(b: Bounds)
    requires b.step > 0
    ensures var r := RangeList(b.start, b.end, b.step);
            && (b.start <= b.end ==> r != [] && r[0] == b.start)
            && (forall i, j :: 0 <= i < j < |r| ==> r[i] < r[j])
            && (forall x :: x in r ==> b.start <= x <= b.end)
    decreases b.end - b.start
  {
    if b.start <= b.end {
      RangeListAscends(Bounds(b.start + b.step, b.end, b.step));
    }
  }

  lemma {:induction false} RangeListMembers(b: Bounds, x: int)
    requires b.step > 0
    ensures x in RangeList(b.start, b.end, b.step) <==> InRange(b, x)
    decreases b.end - b.start
  {
    if b.start <= b.end {
      RangeListMembers(Bounds(b.start + b.step, b.end, b.step), x);
      DivisionStep(x - b.start, b.step);
      if x < b.start + b.step && InRange(b, x) {
        DivisionIsUnique(x - b.start, b.step, 0, x - b.start);
      }
      if x == b.start {
        DivisionIsUnique(0, b.step, 0, 0);
      }
    }
  }

  // ---- Agreement ----

  lemma ParsedBoundsAreNatural(cpuRange: string)
    ensures var b := ParseCpuRange(cpuRange);
            b.Ok? ==> 0 <= b.value.start <= b.value.end
  {
    var raw := Strip(cpuRange);
    if raw != "" {
      var body := raw[..Find(raw, ':')];
      var dash := Find(body, '-');
      assert '-' !in body[..dash];
      ReadIntUnsigned(body[..dash]);
      if '-' !in body {
        assert body[..dash] == body;
      }
    }
  }

  /**
   Both parsers accept the same strings, and refuse the others for the same reason; on an accepted
   string the validator's set holds exactly the numbers of the worker's progression.
   */
  lemma ParsersAgree(cpuRange: string)
    ensures var ids := CpuIdsForRange(cpuRange);
            var b := ParseCpuRange(cpuRange);
            && (ids.Ok? <==> b.Ok?)
            && (ids.Err? ==> b.error == ids.error)
            && (ids.Ok? ==> forall x :: x in ids.value <==> InRange(b.value, x))
  {
    ParsedBoundsAreNatural(cpuRange);
    var raw := Strip(cpuRange);
    if raw != "" {
      var body := raw[..Find(raw, ':')];
      var dash := Find(body, '-');
      assert '-' !in body[..dash];
      ReadIntUnsigned(body[..dash]);
      if '-' !in body {
        assert body[..dash] == body;
      }
    }
    var b := ParseCpuRange(cpuRange);
    if b.Ok? {
      forall x ensures x in RangeList(b.value.start, b.value.end, b.value.step) <==> InRange(b.value, x) {
        RangeListMembers(b.value, x);
      }
    }
  }

  lemma NoCommaInDecimal(n: nat)
    ensures ',' !in Decimal(n)
  {
    assert !IsDigit(',');
  }

  /** A printed list of ids reads back as itself. */
  lemma CpuSetTextReadsBack(ids: seq<int>)
    requires ids != []
    requires forall i :: 0 <= i < |ids| ==> ids[i] >= 0
    ensures |Split(CpuSetText(ids))| == |ids|
    ensures var numbers := ReadCpuSet(CpuSetText(ids));
            |numbers| == |ids| && forall i :: 0 <= i < |ids| ==> numbers[i] == Some(ids[i])
    ensures CpusOf(CpuSetText(ids)) == ToSet(ids)
  {
    var items := Printed(ids);
    forall i | 0 <= i < |ids| ensures ',' !in items[i] && ReadInt(items[i]) == Some(ids[i]) {
      NoCommaInDecimal(ids[i]);
      ReadIntDecimal(ids[i]);
    }
    SplitJoin(items);
    var numbers := ReadCpuSet(CpuSetText(ids));
    assert forall i :: 0 <= i < |ids| ==> numbers[i] == Some(ids[i]);
    forall x ensures x in CpusOf(CpuSetText(ids)) <==> x in ToSet(ids) {
      if x in ids {
        var i :| 0 <= i < |ids| && ids[i] == x;
        assert numbers[i] == Some(x);
        assert Some(x) in numbers;
      }
    }
  }

  lemma ParsedIds(cpuRange: string) returns (b: Bounds, ids: seq<int>)
    requires CpuIdsForRange(cpuRange).Ok?
    ensures ParseCpuRange(cpuRange) == Ok(b) && 0 <= b.start <= b.end && b.step > 0
    ensures ids == RangeList(b.start, b.end, b.step) && ids != []
    ensures forall i :: 0 <= i < |ids| ==> b.start <= ids[i]
    ensures forall i, j :: 0 <= i < j < |ids| ==> ids[i] < ids[j]
    ensures ids[0] == b.start && |ids| == (b.end - b.start) / b.step + 1
    ensures ToSet(ids) == CpuIdsForRange(cpuRange).value
    ensures ToCpuSet(cpuRange) == Ok(CpuSetText(ids))
  {
    ParsersAgree(cpuRange);
    ParsedBoundsAreNatural(cpuRange);
    b := ParseCpuRange(cpuRange).value;
    ids := RangeList(b.start, b.end, b.step);
    RangeListFacts(b);
    forall x ensures x in ToSet(ids) <==> x in CpuIdsForRange(cpuRange).value {
      RangeListMembers(b, x);
    }
  }

  /**
   The round trip behind `cpu_set` and `cpu_count`: for every range the validator accepts, the column
   the worker writes reads back, in ascending order, as exactly the ids the validator saw, and it has
   (end - start) / step + 1 items.
   */
  lemma CpuSetRoundTrip(cpuRange: string)
    requires CpuIdsForRange(cpuRange).Ok?
    ensures ToCpuSet(cpuRange).Ok? && ParseCpuRange(cpuRange).Ok?
    ensures var text := ToCpuSet(cpuRange).value;
            var b := ParseCpuRange(cpuRange).value;
            var numbers := ReadCpuSet(text);
            && CpusOf(text) == CpuIdsForRange(cpuRange).value
            && |Split(text)| == |CpusOf(text)| == (b.end - b.start) / b.step + 1
            && (forall i :: 0 <= i < |numbers| ==> numbers[i].Some?)
            && (forall i, j :: 0 <= i < j < |numbers| ==> numbers[i].value < numbers[j].value)
    ensures ParseCpuRange(cpuRange).value.start in CpuIdsForRange(cpuRange).value
    ensures forall x :: x in CpuIdsForRange(cpuRange).value ==> 0 <= ParseCpuRange(cpuRange).value.start <= x
  {
    hide CpuIdsForRange, RangeList, Join, Split, Strip, Find, ReadInt, Printed;
    var b, ids := ParsedIds(cpuRange);
    CpuSetTextReadsBack(ids);
    ToSetSize(ids);
    assert ids[0] in ToSet(ids);
  }
}
